/**
 * What a constructor's formal-argument ids resolve to. An id may be a global
 * parameter of the parameter store, a local (sub-)parameter of the parameter
 * owning the mapping, a numeric keyword standing for a primitive type, a
 * method of the design context, or a class name. The environment records
 * what the store, the parameter utilities and the class path answer.
 */
module ClassLookup {
  import opened Wrappers
  import opened ConstructorSelection

  /**
   * `classes` maps every loadable class to its public constructors;
   * `globalParams` / `localParams` map the parameters the store and the owning
   * parameter know to their classes (absent when the parameter has none);
   * `globalSyntax` holds the ids written in global-parameter syntax;
   * `methodReturnTypes` maps the method-context ids to their return class;
   * `numeric` maps the numeric keywords to their primitive class.
   */
  datatype Env = Env(
    classes: map<ClassName, seq<Signature>>,
    globalParams: map<string, Option<ClassName>>,
    localParams: map<string, Option<ClassName>>,
    globalSyntax: set<string>,
    methodReturnTypes: map<string, Option<ClassName>>,
    numeric: map<string, ClassName>)

  /** Why building the component of a parameter fails. */
  datatype Error =
    | MissingMapping                        // the code mappings name no component class
    | ClassNotFound(className: Option<ClassName>)
    | UnknownIdentifier(identifier: string) // no class, subparameter or parameter by that id
    | NoSuchConstructor                     // the resolved argument classes match no public constructor
    | NotInstantiable                       // the class is abstract
    | NotVisible                            // the constructor is not accessible
    | ArgumentMismatch(declaringClass: Option<ClassName>, argumentTypes: string)
    | ConstructorFailed                     // the constructor itself threw
    | NullConstructor                       // no constructor was ever chosen

  /** The primitive class a numeric keyword stands for. */
  function ClassForNumericParam(env: Env, id: string): (r: Option<ClassName>)
    ensures r.Some? <==> id in env.numeric
    ensures r.Some? ==> r.value == env.numeric[id]
  {
    if id in env.numeric then Some(env.numeric[id]) else None
  }

  /**
   * The class of a global parameter, or failing that the return class of a
   * design-context method; a global parameter without a class yields none,
   * the method context is then not consulted.
   */
  function ClassForGlobalContext(env: Env, id: string): (r: Option<ClassName>)
    ensures id in env.globalParams ==> r == env.globalParams[id]
    ensures id !in env.globalParams && id in env.methodReturnTypes ==> r == env.methodReturnTypes[id]
    ensures r.Some? ==> id in env.globalParams || id in env.methodReturnTypes
  {
    if id in env.globalParams then env.globalParams[id]
    else if id in env.methodReturnTypes then env.methodReturnTypes[id]
    else None
  }

  /** Numeric keyword first, then the global context, then a local parameter. */
  function ClassForLocalContext(env: Env, id: string): (r: Option<ClassName>)
    ensures id in env.numeric ==> r == Some(env.numeric[id])
    ensures id !in env.numeric && ClassForGlobalContext(env, id).Some? ==> r == ClassForGlobalContext(env, id)
    ensures r.Some? && id !in env.numeric && ClassForGlobalContext(env, id).None? ==>
      id in env.localParams && r == env.localParams[id]
    ensures r.None? ==>
      && id !in env.numeric
      && ClassForGlobalContext(env, id).None?
      && (id in env.localParams ==> env.localParams[id].None?)
  {
    var numeric := ClassForNumericParam(env, id);
    if numeric.Some? then numeric
    else
      var global := ClassForGlobalContext(env, id);
      if global.Some? then global
      else if id in env.localParams then env.localParams[id]
      else None
  }

  /**
   * The class of one formal-argument id: an id in global syntax is looked up
   * in the global context and otherwise taken as a class name; any other id
   * goes through the local context.
   */
  function InitClass(env: Env, id: string): (r: Result<ClassName, Error>)
    ensures r.Failure? ==> r.error == UnknownIdentifier(id)
    ensures id in env.globalSyntax && ClassForGlobalContext(env, id).Some? ==>
      r == Success(ClassForGlobalContext(env, id).value)
    ensures id in env.globalSyntax && ClassForGlobalContext(env, id).None? ==>
      (r.Success? <==> id in env.classes) && (r.Success? ==> r.value == id)
    ensures id !in env.globalSyntax ==>
      (r.Success? <==> ClassForLocalContext(env, id).Some?) &&
      (r.Success? ==> r.value == ClassForLocalContext(env, id).value)
  {
    var found :=
      if id in env.globalSyntax then
        var global := ClassForGlobalContext(env, id);
        if global.Some? then global else if id in env.classes then Some(id) else None
      else ClassForLocalContext(env, id);
    if found.Some? then Success(found.value) else Failure(UnknownIdentifier(id))
  }

  /** `ids[k]` is the first id that does not resolve. */
  ghost predicate FirstUnresolved(env: Env, ids: seq<string>, k: int) {
    && 0 <= k < |ids|
    && InitClass(env, ids[k]).Failure?
    && forall j :: 0 <= j < k ==> InitClass(env, ids[j]).Success?
  }

  /**
   * The classes of all formal-argument ids, in order, or the error of the
   * first id that does not resolve.
   */
  function ResolveAll(env: Env, ids: seq<string>): (r: Result<seq<ClassName>, Error>)
    ensures r.Success? <==> forall k :: 0 <= k < |ids| ==> InitClass(env, ids[k]).Success?
    ensures r.Success? ==>
      && |r.value| == |ids|
      && forall k :: 0 <= k < |ids| ==> r.value[k] == InitClass(env, ids[k]).value
    ensures r.Failure? ==> exists k :: FirstUnresolved(env, ids, k) && r.error == UnknownIdentifier(ids[k])
  {
    if ids == [] then Success([])
    else
      var first := InitClass(env, ids[0]);
      if first.Failure? then Failure(first.error)
      else
        var rest := ResolveAll(env, ids[1..]);
        assert forall k :: 1 <= k < |ids| ==> ids[k] == ids[1..][k - 1];
        if rest.Failure? then
          assert exists k :: FirstUnresolved(env, ids, k) && rest.error == UnknownIdentifier(ids[k]) by {
            var k :| FirstUnresolved(env, ids[1..], k) && rest.error == UnknownIdentifier(ids[1..][k]);
            assert FirstUnresolved(env, ids, k + 1);
          }
          Failure(rest.error)
        else Success([first.value] + rest.value)
  }

  /** The ids the parameter store knows as global parameters. */
  ghost function GlobalIds(env: Env, ids: seq<string>): set<string> {
    set id | id in ids && id in env.globalParams
  }

  /** The ids that are not global but name a local parameter. */
  ghost function LocalIds(env: Env, ids: seq<string>): set<string> {
    set id | id in ids && id !in env.globalParams && id in env.localParams
  }

  /**
   * What the local context knows about each argument position: the class of
   * an id among `localRefs`, unknown for every other id.
   */
  function ContextOf(env: Env, ids: seq<string>, localRefs: set<string>): (r: seq<Option<ClassName>>)
    ensures |r| == |ids|
    ensures forall k :: 0 <= k < |ids| && r[k].Some? ==> ids[k] in localRefs
    ensures forall k :: 0 <= k < |ids| && ids[k] in localRefs ==> r[k] == ClassForLocalContext(env, ids[k])
  {
    seq(|ids|, k requires 0 <= k < |ids| => if ids[k] in localRefs then ClassForLocalContext(env, ids[k]) else None)
  }

  /**
   * Everything initialising a non-enumeration parameter's class type decides:
   * the public constructor to use (none when the class has no public
   * constructor) or the error raised.
   */
  ghost function Resolve(env: Env, componentId: Option<ClassName>, ids: seq<string>): (r: Result<Option<Signature>, Error>)
    ensures r.Success? && r.value.Some? ==>
      componentId.Some? && componentId.value in env.classes && r.value.value in env.classes[componentId.value]
    ensures r.Success? && r.value.None? ==> componentId.Some? && componentId.value in env.classes && env.classes[componentId.value] == []
    ensures componentId.None? ==> r == Failure(MissingMapping)
    ensures componentId.Some? && componentId.value !in env.classes ==> r == Failure(ClassNotFound(componentId))
    ensures componentId.Some? && componentId.value in env.classes && |env.classes[componentId.value]| == 1 ==>
      r == Success(Some(env.classes[componentId.value][0]))
    // the guessed constructor, when there is one, is used without resolving the ids
    ensures componentId.Some? && componentId.value in env.classes ==>
      var guessed := Guess(env.classes[componentId.value], ContextOf(env, ids, LocalIds(env, ids)));
      guessed.Some? ==> r == Success(guessed)
    // otherwise the ids are resolved, and the first one that does not resolve is the error
    ensures componentId.Some? && componentId.value in env.classes ==>
      var guessed := Guess(env.classes[componentId.value], ContextOf(env, ids, LocalIds(env, ids)));
      guessed.None? && ResolveAll(env, ids).Failure? ==> r == Failure(ResolveAll(env, ids).error)
    // and the public constructor taking exactly the resolved classes is used, if there is one
    ensures componentId.Some? && componentId.value in env.classes ==>
      var constructors := env.classes[componentId.value];
      var guessed := Guess(constructors, ContextOf(env, ids, LocalIds(env, ids)));
      var params := ResolveAll(env, ids);
      guessed.None? && params.Success? && constructors != [] ==>
        r == (if params.value in constructors then Success(Some(params.value)) else Failure(NoSuchConstructor))
    // a class without public constructors gets none once its ids resolve
    ensures componentId.Some? && componentId.value in env.classes && env.classes[componentId.value] == [] ==>
      r == (if ResolveAll(env, ids).Success? then Success(None) else Failure(ResolveAll(env, ids).error))
  {
    if componentId.None? then Failure(MissingMapping)
    else if componentId.value !in env.classes then Failure(ClassNotFound(componentId))
    else
      var constructors := env.classes[componentId.value];
      var guessed := Guess(constructors, ContextOf(env, ids, LocalIds(env, ids)));
      var params := if guessed.Some? then Success(guessed.value) else ResolveAll(env, ids);
      if params.Failure? then Failure(params.error)
      else if |constructors| == 0 then Success(None)
      else if params.value in constructors then Success(Some(params.value))
      else Failure(NoSuchConstructor)
  }
}
