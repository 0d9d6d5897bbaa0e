/**
 * Dependency linking between parameters and the evaluation-order comparator
 * (ParamEvaluationOrderComparator.java).
 *
 * A parameter's inclusive/exclusive maximum and minimum are bound expressions
 * given as text. When that text mentions another leaf parameter's id, the
 * linker records a directed max or min dependency edge and the inverse
 * "dependee" edge. The comparator then orders parameters: dependencies first,
 * then by the number of direct dependencies, then by the number of dependees,
 * then a final tie-break.
 */
module EvaluationOrder {
  import opened JavaStrings

  /** The four bound attributes a parameter may declare (inclusive/exclusive maximum and minimum). */
  datatype Bound = InclMax | ExclMax | InclMin | ExclMin

  /**
   * A parameter node. Its id, bound texts (an absent attribute is a missing
   * key) and children are fixed; its dependency sets are filled by the linker.
   */
  class Param {
    const id: string
    const bounds: map<Bound, string>
    const children: seq<Param>
    var maxDependencies: set<Param>
    var minDependencies: set<Param>
    var dependees: set<Param>

    constructor (id: string, bounds: map<Bound, string>, children: seq<Param>)
      ensures this.id == id && this.bounds == bounds && this.children == children
      ensures maxDependencies == {} && minDependencies == {} && dependees == {}
    {
      this.id := id;
      this.bounds := bounds;
      this.children := children;
      maxDependencies := {};
      minDependencies := {};
      dependees := {};
    }

    /** The parameters this one's max or min bound refers to. */
    function DirectDependencies(): set<Param>
      reads this
    {
      maxDependencies + minDependencies
    }

    function AmountDirectDependencies(): nat
      reads this
    {
      |maxDependencies| + |minDependencies|
    }

    function AmountDependees(): nat
      reads this
    {
      |dependees|
    }
  }

  /**
   * `param1`'s bound `extremeAttr` is present, its text contains `param2`'s id,
   * and `param2` is a leaf.
   */
  function RelativeTo(param1: Param, param2: Param, extremeAttr: Bound): (r: bool)
    ensures r <==> extremeAttr in param1.bounds
                   && Occurs(param1.bounds[extremeAttr], param2.id)
                   && |param2.children| == 0
  {
    if extremeAttr in param1.bounds then
      Contains(param1.bounds[extremeAttr], param2.id) && |param2.children| == 0
    else
      false
  }

  /** `param1`'s maximum (inclusive or exclusive) refers to `param2`. */
  predicate MaxRelated(param1: Param, param2: Param) {
    RelativeTo(param1, param2, InclMax) || RelativeTo(param1, param2, ExclMax)
  }

  /** `param1`'s minimum (inclusive or exclusive) refers to `param2`. */
  predicate MinRelated(param1: Param, param2: Param) {
    RelativeTo(param1, param2, InclMin) || RelativeTo(param1, param2, ExclMin)
  }

  predicate Related(param1: Param, param2: Param) {
    MaxRelated(param1, param2) || MinRelated(param1, param2)
  }

  /** The dependency sets and dependees of `universe` stay inside it. */
  ghost predicate Closed(universe: set<Param>)
    reads universe
  {
    forall p :: p in universe ==>
      p.maxDependencies <= universe && p.minDependencies <= universe && p.dependees <= universe
  }

  /** Every recorded dependency edge is justified by the bound text it came from. */
  ghost predicate LinksJustified(universe: set<Param>)
    reads universe
  {
    (forall p, q :: p in universe && q in p.maxDependencies ==> MaxRelated(p, q)) &&
    (forall p, q :: p in universe && q in p.minDependencies ==> MinRelated(p, q))
  }

  /** Dependees are exactly the inverse of the dependency edges. */
  ghost predicate DependeesInverse(universe: set<Param>)
    reads universe
  {
    forall p, q :: p in universe && q in universe ==>
      (q in p.dependees <==> p in q.maxDependencies || p in q.minDependencies)
  }

  ghost predicate Linked(universe: set<Param>)
    reads universe
  {
    Closed(universe) && LinksJustified(universe) && DependeesInverse(universe)
  }

  /** Parameters as their constructor leaves them, with no edges recorded yet, are linked. */
  lemma UnlinkedIsLinked(universe: set<Param>)
    requires forall p :: p in universe ==> p.maxDependencies == {} && p.minDependencies == {} && p.dependees == {}
    ensures Linked(universe)
  {
  }

  /** `param1.addMaxDependency(param2)` followed by `param2.addDependee(param1)`. */
  method AddMaxEdge(param1: Param, param2: Param, ghost universe: set<Param>)
    requires param1 in universe && param2 in universe && Linked(universe)
    requires MaxRelated(param1, param2)
    modifies param1, param2
    ensures Linked(universe)
    ensures param1.maxDependencies == old(param1.maxDependencies) + {param2}
    ensures param1.minDependencies == old(param1.minDependencies)
    ensures param2.dependees == old(param2.dependees) + {param1}
    ensures param1 != param2 ==> param1.dependees == old(param1.dependees)
    ensures param1 != param2 ==> param2.maxDependencies == old(param2.maxDependencies)
    ensures param1 != param2 ==> param2.minDependencies == old(param2.minDependencies)
  {
    param1.maxDependencies := param1.maxDependencies + {param2};
    param2.dependees := param2.dependees + {param1};
  }

  /** `param1.addMinDependency(param2)` followed by `param2.addDependee(param1)`. */
  method AddMinEdge(param1: Param, param2: Param, ghost universe: set<Param>)
    requires param1 in universe && param2 in universe && Linked(universe)
    requires MinRelated(param1, param2)
    modifies param1, param2
    ensures Linked(universe)
    ensures param1.minDependencies == old(param1.minDependencies) + {param2}
    ensures param1.maxDependencies == old(param1.maxDependencies)
    ensures param2.dependees == old(param2.dependees) + {param1}
    ensures param1 != param2 ==> param1.dependees == old(param1.dependees)
    ensures param1 != param2 ==> param2.maxDependencies == old(param2.maxDependencies)
    ensures param1 != param2 ==> param2.minDependencies == old(param2.minDependencies)
  {
    param1.minDependencies := param1.minDependencies + {param2};
    param2.dependees := param2.dependees + {param1};
  }

  /**
   * Records the max and min dependencies of `param1` on `param2`, each when
   * its bound text refers to `param2`, and reports whether any was recorded.
   */
  method InitDependencies(param1: Param, param2: Param, ghost universe: set<Param>) returns (result: bool)
    requires param1 in universe && param2 in universe && Linked(universe)
    modifies param1, param2
    ensures Linked(universe)
    ensures result == Related(param1, param2)
    ensures param1.maxDependencies
            == old(param1.maxDependencies) + (if MaxRelated(param1, param2) then {param2} else {})
    ensures param1.minDependencies
            == old(param1.minDependencies) + (if MinRelated(param1, param2) then {param2} else {})
    ensures param2.dependees == old(param2.dependees) + (if result then {param1} else {})
    ensures param1 != param2 ==> param1.dependees == old(param1.dependees)
    ensures param1 != param2 ==> param2.maxDependencies == old(param2.maxDependencies)
    ensures param1 != param2 ==> param2.minDependencies == old(param2.minDependencies)
  {
    result := false;
    if RelativeTo(param1, param2, InclMax) || RelativeTo(param1, param2, ExclMax) {
      AddMaxEdge(param1, param2, universe);
      result := true;
    }
    if RelativeTo(param1, param2, InclMin) || RelativeTo(param1, param2, ExclMin) {
      AddMinEdge(param1, param2, universe);
      result := true;
    }
  }

  /**
   * Links a pair: `param1` relative to `param2` first, and `param2` relative
   * to `param1` only when the first direction recorded nothing.
   */
  method Init(param1: Param, param2: Param, ghost universe: set<Param>)
    requires param1 in universe && param2 in universe && Linked(universe)
    modifies param1, param2
    ensures Linked(universe)
    ensures Related(param1, param2) ==>
      && param1.maxDependencies
         == old(param1.maxDependencies) + (if MaxRelated(param1, param2) then {param2} else {})
      && param1.minDependencies
         == old(param1.minDependencies) + (if MinRelated(param1, param2) then {param2} else {})
      && param2.dependees == old(param2.dependees) + {param1}
      && (param1 != param2 ==>
            && param1.dependees == old(param1.dependees)
            && param2.maxDependencies == old(param2.maxDependencies)
            && param2.minDependencies == old(param2.minDependencies))
    ensures !Related(param1, param2) ==>
      && param2.maxDependencies
         == old(param2.maxDependencies) + (if MaxRelated(param2, param1) then {param1} else {})
      && param2.minDependencies
         == old(param2.minDependencies) + (if MinRelated(param2, param1) then {param1} else {})
      && param1.dependees
         == old(param1.dependees) + (if Related(param2, param1) then {param2} else {})
      && (param1 != param2 ==>
            && param2.dependees == old(param2.dependees)
            && param1.maxDependencies == old(param1.maxDependencies)
            && param1.minDependencies == old(param1.minDependencies))
  {
    var forward := InitDependencies(param1, param2, universe);
    if !forward {
      var _ := InitDependencies(param2, param1, universe);
    }
  }

  /** `chain` walks along dependency edges inside `universe`. */
  ghost predicate IsChain(universe: set<Param>, older chain: seq<Param>)
    reads universe
  {
    (forall k :: 0 <= k < |chain| ==> chain[k] in universe) &&
    (forall k :: 0 <= k < |chain| - 1 ==> chain[k + 1] in chain[k].DirectDependencies())
  }

  /**
   * `param1` depends on `param2` directly or transitively: `param2` is reached
   * from `param1` by one or more max/min dependency edges.
   */
  ghost predicate DependsOn(universe: set<Param>, param1: Param, param2: Param)
    reads universe
  {
    exists chain :: |chain| >= 2 && chain[0] == param1 && chain[|chain| - 1] == param2
                    && IsChain(universe, chain)
  }

  /** A direct dependency edge is a dependency. */
  lemma DirectDependencyIsDependsOn(universe: set<Param>, param1: Param, param2: Param)
    requires Closed(universe) && param1 in universe
    requires param2 in param1.DirectDependencies()
    ensures DependsOn(universe, param1, param2)
  {
    var chain := [param1, param2];
    assert IsChain(universe, chain);
  }

  /** A dependency followed by one more edge is a dependency. */
  lemma DependsOnExtend(universe: set<Param>, param1: Param, x: Param, y: Param)
    requires Closed(universe) && DependsOn(universe, param1, x)
    requires y in x.DirectDependencies()
    ensures DependsOn(universe, param1, y)
  {
    var chain: seq<Param> :| |chain| >= 2 && chain[0] == param1 && chain[|chain| - 1] == x
                 && IsChain(universe, chain);
    var longer := chain + [y];
    assert IsChain(universe, longer) by {
      forall k | 0 <= k < |longer| - 1
        ensures longer[k + 1] in longer[k].DirectDependencies()
      {
        if k < |chain| - 1 {
          assert longer[k] == chain[k] && longer[k + 1] == chain[k + 1];
        }
      }
    }
  }

  /** Depending on is transitive. */
  lemma DependsOnTransitive(universe: set<Param>, a: Param, b: Param, c: Param)
    requires DependsOn(universe, a, b) && DependsOn(universe, b, c)
    ensures DependsOn(universe, a, c)
  {
    var first: seq<Param> :| |first| >= 2 && first[0] == a && first[|first| - 1] == b
                 && IsChain(universe, first);
    var second: seq<Param> :| |second| >= 2 && second[0] == b && second[|second| - 1] == c
                  && IsChain(universe, second);
    var joined := first + second[1..];
    assert IsChain(universe, joined) by {
      forall k | 0 <= k < |joined|
        ensures joined[k] in universe
      {
        if k >= |first| {
          assert joined[k] == second[k - |first| + 1];
        }
      }
      forall k | 0 <= k < |joined| - 1
        ensures joined[k + 1] in joined[k].DirectDependencies()
      {
        if k < |first| - 1 {
          assert joined[k] == first[k] && joined[k + 1] == first[k + 1];
        } else if k == |first| - 1 {
          assert joined[k] == second[0] && joined[k + 1] == second[1];
        } else {
          assert joined[k] == second[k - |first| + 1] && joined[k + 1] == second[k - |first| + 2];
        }
      }
    }
    assert joined[|joined| - 1] == c;
  }

  /** A parameter without max or min dependencies depends on nothing. */
  lemma NoEdgesNoDependsOn(universe: set<Param>, param1: Param, param2: Param)
    requires param1.DirectDependencies() == {}
    ensures !DependsOn(universe, param1, param2)
  {
    forall chain: seq<Param> | |chain| >= 2 && IsChain(universe, chain)
      ensures chain[1] in chain[0].DirectDependencies()
    {
    }
  }

  /** A set containing the first step of a chain and closed under edges contains the chain's end. */
  lemma ClosedSetReachesEnd(universe: set<Param>, visited: set<Param>, chain: seq<Param>)
    requires IsChain(universe, chain) && |chain| >= 2
    requires chain[0].DirectDependencies() <= visited
    requires forall x :: x in visited ==> x.DirectDependencies() <= visited
    ensures chain[|chain| - 1] in visited
  {
    var k := 1;
    while k < |chain| - 1
      invariant 1 <= k <= |chain| - 1 && chain[k] in visited
    {
      assert chain[k + 1] in chain[k].DirectDependencies();
      k := k + 1;
    }
  }

  /** What the search knows about its visited and pending sets between two steps. */
  ghost predicate SearchInvariant(universe: set<Param>, param1: Param, param2: Param,
                                  visited: set<Param>, pending: set<Param>)
    reads universe
  {
    && param1 in universe
    && visited + pending <= universe
    && visited !! pending
    && param2 !in visited
    && (forall x :: x in visited + pending ==> DependsOn(universe, param1, x))
    && param1.DirectDependencies() <= visited + pending
    && (forall x :: x in visited ==> x.DirectDependencies() <= visited + pending)
  }

  /** Moving one pending parameter other than the target to the visited set keeps the invariant. */
  lemma SearchStep(universe: set<Param>, param1: Param, param2: Param,
                   visited: set<Param>, pending: set<Param>, x: Param)
    requires Closed(universe) && SearchInvariant(universe, param1, param2, visited, pending)
    requires x in pending && x != param2
    ensures SearchInvariant(universe, param1, param2, visited + {x},
                            (pending - {x}) + (x.DirectDependencies() - (visited + {x})))
    ensures |universe - (visited + {x})| < |universe - visited|
  {
    var visited', pending' := visited + {x}, (pending - {x}) + (x.DirectDependencies() - (visited + {x}));
    assert x.DirectDependencies() <= universe;
    assert visited' + pending' == visited + pending + x.DirectDependencies();
    forall y | y in x.DirectDependencies()
      ensures DependsOn(universe, param1, y)
    {
      DependsOnExtend(universe, param1, x, y);
    }
    assert universe - visited' == (universe - visited) - {x};
  }

  /**
   * Whether `param1` depends on `param2`, by a search along dependency edges
   * that marks what it has visited.
   */
  method DependsOnSearch(param1: Param, param2: Param, ghost universe: set<Param>) returns (found: bool)
    requires Closed(universe) && param1 in universe
    ensures found <==> DependsOn(universe, param1, param2)
  {
    var visited: set<Param> := {};
    var pending := param1.DirectDependencies();
    forall y | y in pending
      ensures DependsOn(universe, param1, y)
    {
      DirectDependencyIsDependsOn(universe, param1, y);
    }
    while pending != {}
      invariant SearchInvariant(universe, param1, param2, visited, pending)
      decreases |universe - visited|
    {
      var x :| x in pending;
      if x == param2 {
        return true;
      }
      SearchStep(universe, param1, param2, visited, pending, x);
      pending := (pending - {x}) + (x.DirectDependencies() - (visited + {x}));
      visited := visited + {x};
    }
    if DependsOn(universe, param1, param2) {
      var chain: seq<Param> :| |chain| >= 2 && chain[0] == param1 && chain[|chain| - 1] == param2
                               && IsChain(universe, chain);
      ClosedSetReachesEnd(universe, visited, chain);
    }
    return false;
  }

  /**
   * The comparator as written. After the casts of both arguments to Param,
   * the descriptor-element branch is unreachable; each of the two count
   * comparisons tests `dep1 > dep2` twice, so its second branch is dead.
   * Hence: a dependency decides; otherwise more direct dependencies on
   * `arg0` give 1 and everything else gives -1 (dependee counts never
   * matter, and the result is never 0).
   */
  method Compare(arg0: Param, arg1: Param, ghost universe: set<Param>) returns (result: int)
    requires Closed(universe) && arg0 in universe && arg1 in universe
    ensures result == 1 || result == -1
    ensures result == 1 <==>
              || DependsOn(universe, arg0, arg1)
              || (!DependsOn(universe, arg1, arg0)
                  && arg0.AmountDirectDependencies() > arg1.AmountDirectDependencies())
    ensures DependsOn(universe, arg0, arg1) ==> result == 1
    ensures !DependsOn(universe, arg0, arg1) && DependsOn(universe, arg1, arg0) ==> result == -1
    ensures arg0 == arg1 ==> (result == -1 <==> !DependsOn(universe, arg0, arg0))
  {
    result := 0;
    var directDependency := false;
    var forward := DependsOnSearch(arg0, arg1, universe);
    if forward {
      result := 1;
      directDependency := true;
    } else {
      var backward := DependsOnSearch(arg1, arg0, universe);
      if backward {
        result := -1;
        directDependency := true;
      } else if !directDependency {
        var dep1 := arg0.AmountDirectDependencies();
        var dep2 := arg1.AmountDirectDependencies();
        if dep1 > dep2 {
          result := 1;
        } else if dep1 > dep2 {
          result := -1;
        } else {
          dep1 := arg0.AmountDependees();
          dep2 := arg1.AmountDependees();
          if dep1 > dep2 {
            result := -1;
          } else if dep1 > dep2 {
            result := 1;
          } else {
            // Both arguments are parameters, so the test "arg0 is a parameter" picks -1.
            result := -1;
          }
        }
      }
    }
  }

  /**
   * Two unrelated leaf parameters each compare below the other, so the
   * comparator breaks the sign-antisymmetry a Java comparator must have.
   */
  method CompareIsNotAntisymmetric() returns (forward: int, backward: int)
    ensures forward == -1 && backward == -1
  {
    var a := new Param("a", map[], []);
    var b := new Param("b", map[], []);
    ghost var universe := {a, b};
    NoEdgesNoDependsOn(universe, a, b);
    NoEdgesNoDependsOn(universe, b, a);
    forward := Compare(a, b, universe);
    backward := Compare(b, a, universe);
  }
}
