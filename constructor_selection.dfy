/**
 * How a code mapping's component class gets one of its public constructors
 * picked without being told which: the only constructor, else the only one
 * with as many arguments as the mapping lists, else the only one whose
 * argument types survive filtering by the classes the local context knows.
 * Constructors are identified by their parameter types.
 */
module ConstructorSelection {
  import opened Wrappers

  /** A fully qualified Java class name. */
  type ClassName = string

  /** A public constructor, identified by the classes of its parameters. */
  type Signature = seq<ClassName>

  /** `a` is `b` with some elements removed, the rest in their order. */
  predicate IsSubsequence(a: seq<Signature>, b: seq<Signature>)
    decreases |b|
  {
    if a == [] then true
    else if b == [] then false
    else (a[|a| - 1] == b[|b| - 1] && IsSubsequence(a[..|a| - 1], b[..|b| - 1]))
         || IsSubsequence(a, b[..|b| - 1])
  }

  /** Appending the same element to both sides, or to the longer side only, keeps a subsequence. */
  lemma SubsequenceAppend(a: seq<Signature>, b: seq<Signature>, x: Signature)
    requires IsSubsequence(a, b)
    ensures IsSubsequence(a + [x], b + [x])
    ensures IsSubsequence(a, b + [x])
  {
    assert (a + [x])[..|a|] == a && (b + [x])[..|b|] == b;
  }

  /** Every element of a subsequence is an element of the sequence. */
  lemma {:induction false} SubsequenceIncluded(a: seq<Signature>, b: seq<Signature>)
    requires IsSubsequence(a, b)
    ensures forall s :: s in a ==> s in b
    decreases |b|
  {
    if a != [] {
      var a', b' := a[..|a| - 1], b[..|b| - 1];
      assert a == a' + [a[|a| - 1]] && b == b' + [b[|b| - 1]];
      if a[|a| - 1] == b[|b| - 1] && IsSubsequence(a', b') {
        SubsequenceIncluded(a', b');
      } else {
        SubsequenceIncluded(a, b');
      }
    }
  }

  lemma {:induction false} SubsequenceTransitive(a: seq<Signature>, b: seq<Signature>, c: seq<Signature>)
    requires IsSubsequence(a, b) && IsSubsequence(b, c)
    ensures IsSubsequence(a, c)
    decreases |c|
  {
    if a != [] {
      var a', b', c' := a[..|a| - 1], b[..|b| - 1], c[..|c| - 1];
      if b[|b| - 1] == c[|c| - 1] && IsSubsequence(b', c') {
        if a[|a| - 1] == b[|b| - 1] && IsSubsequence(a', b') {
          SubsequenceTransitive(a', b', c');
        } else {
          SubsequenceTransitive(a, b', c');
        }
      } else {
        SubsequenceTransitive(a, b, c');
      }
    }
  }

  lemma {:induction false} SubsequenceReflexive(s: seq<Signature>)
    ensures IsSubsequence(s, s)
    decreases |s|
  {
    if s != [] {
      SubsequenceReflexive(s[..|s| - 1]);
    }
  }

  /** No constructor is listed twice. */
  ghost predicate Distinct(s: seq<Signature>) {
    forall a, b :: 0 <= a < b < |s| ==> s[a] != s[b]
  }

  /** A subsequence of a sequence without repetitions has none either. */
  lemma {:induction false} SubsequenceDistinct(a: seq<Signature>, b: seq<Signature>)
    requires IsSubsequence(a, b) && Distinct(b)
    ensures Distinct(a)
    decreases |b|
  {
    if a != [] {
      var a', b' := a[..|a| - 1], b[..|b| - 1];
      assert Distinct(b') by {
        assert forall x :: 0 <= x < |b'| ==> b'[x] == b[x];
      }
      if a[|a| - 1] == b[|b| - 1] && IsSubsequence(a', b') {
        SubsequenceDistinct(a', b');
        SubsequenceIncluded(a', b');
        forall x | 0 <= x < |a| - 1
          ensures a[x] != a[|a| - 1]
        {
          assert a[x] == a'[x] && a'[x] in b';
          var y :| 0 <= y < |b'| && b'[y] == a[x];
          assert b[y] == a[x] && y < |b| - 1;
        }
      } else {
        SubsequenceDistinct(a, b');
      }
    }
  }

  /** The first two elements of a sequence without repetitions differ. */
  lemma DistinctFirstTwo(s: seq<Signature>)
    requires Distinct(s) && |s| >= 2
    ensures s[0] != s[1]
  {
  }

  /** A sequence without repetitions that holds only `c`, and holds it, is `[c]`. */
  lemma DistinctOnly(s: seq<Signature>, c: Signature)
    requires Distinct(s) && c in s
    requires forall k :: 0 <= k < |s| ==> s[k] == c
    ensures |s| == 1
  {
    if |s| >= 2 {
      DistinctFirstTwo(s);
    }
  }

  /** A sequence holding two different elements is not a singleton. */
  lemma DistinctMembers(s: seq<Signature>, c: Signature, d: Signature)
    requires c in s && d in s && c != d
    ensures |s| != 1
  {
  }

  /** The constructors taking exactly `n` arguments, in their order. */
  function ByArity(constructors: seq<Signature>, n: nat): (r: seq<Signature>)
    ensures forall s :: s in r <==> s in constructors && |s| == n
    ensures IsSubsequence(r, constructors)
  {
    if constructors == [] then []
    else
      var front, last := constructors[..|constructors| - 1], constructors[|constructors| - 1];
      assert constructors == front + [last];
      var r := ByArity(front, n);
      SubsequenceAppend(r, front, last);
      if |last| == n then r + [last] else r
  }

  /** The candidates whose `i`-th parameter is of class `c`, in their order. */
  function Keep(candidates: seq<Signature>, i: nat, c: ClassName): (r: seq<Signature>)
    requires forall s :: s in candidates ==> i < |s|
    ensures forall s :: s in r <==> s in candidates && s[i] == c
    ensures IsSubsequence(r, candidates)
  {
    if candidates == [] then []
    else
      var front, last := candidates[..|candidates| - 1], candidates[|candidates| - 1];
      assert candidates == front + [last];
      var r := Keep(front, i, c);
      SubsequenceAppend(r, front, last);
      if last[i] == c then r + [last] else r
  }

  /** `ByArity` keeps every occurrence of a constructor of the right arity and drops all others. */
  lemma {:induction false} ByArityCounts(constructors: seq<Signature>, n: nat, s: Signature)
    ensures multiset(ByArity(constructors, n))[s] == (if |s| == n then multiset(constructors)[s] else 0)
    decreases |constructors|
  {
    if constructors != [] {
      var front, last := constructors[..|constructors| - 1], constructors[|constructors| - 1];
      assert constructors == front + [last];
      ByArityCounts(front, n, s);
    }
  }

  /** `Keep` keeps every occurrence of a matching candidate and drops all others. */
  lemma {:induction false} KeepCounts(candidates: seq<Signature>, i: nat, c: ClassName, s: Signature)
    requires forall t :: t in candidates ==> i < |t|
    requires s in candidates
    ensures multiset(Keep(candidates, i, c))[s] == (if s[i] == c then multiset(candidates)[s] else 0)
    decreases |candidates|
  {
    var front, last := candidates[..|candidates| - 1], candidates[|candidates| - 1];
    assert candidates == front + [last];
    if s in front {
      KeepCounts(front, i, c, s);
    } else {
      assert multiset(front)[s] == 0;
      assert Keep(front, i, c) == [] || s !in Keep(front, i, c);
    }
  }

  /** The indices are strictly increasing. */
  ghost predicate Ascending(indices: seq<nat>) {
    forall a, b :: 0 <= a < b < |indices| ==> indices[a] < indices[b]
  }

  /** The positions, in increasing order, of the candidates whose `i`-th parameter is not `c`. */
  function Mismatches(candidates: seq<Signature>, i: nat, c: ClassName): (r: seq<nat>)
    requires forall s :: s in candidates ==> i < |s|
    ensures Ascending(r)
    ensures forall k :: 0 <= k < |r| ==> r[k] < |candidates| && candidates[r[k]][i] != c
  {
    if candidates == [] then []
    else
      var n := |candidates| - 1;
      var front := candidates[..n];
      assert forall k :: 0 <= k < n ==> front[k] == candidates[k];
      var r := Mismatches(front, i, c);
      if candidates[n][i] != c then r + [n] else r
  }

  /** Java's `List.remove(int)`. */
  function RemoveAt(s: seq<Signature>, k: nat): seq<Signature>
    requires k < |s|
  {
    s[..k] + s[k + 1..]
  }

  /** Removes the given positions, the last (largest) one first, so the others keep their meaning. */
  function RemoveAll(s: seq<Signature>, indices: seq<nat>): seq<Signature>
    requires Ascending(indices)
    requires forall k :: 0 <= k < |indices| ==> indices[k] < |s|
    decreases |indices|
  {
    if indices == [] then s
    else
      var n := |indices| - 1;
      RemoveAll(RemoveAt(s, indices[n]), indices[..n])
  }

  /** One removal from the back: the largest remaining position goes, the smaller ones stay valid. */
  lemma RemoveLastIndex(s: seq<Signature>, indices: seq<nat>, j: nat)
    requires Ascending(indices) && j < |indices|
    requires forall k :: 0 <= k <= j ==> indices[k] < |s|
    ensures Ascending(indices[..j + 1]) && Ascending(indices[..j])
    ensures forall k :: 0 <= k < j ==> indices[k] < |RemoveAt(s, indices[j])|
    ensures RemoveAll(s, indices[..j + 1]) == RemoveAll(RemoveAt(s, indices[j]), indices[..j])
  {
    assert indices[..j + 1][..j] == indices[..j];
  }

  lemma {:induction false} RemoveAllAppend(s: seq<Signature>, x: Signature, indices: seq<nat>)
    requires Ascending(indices)
    requires forall k :: 0 <= k < |indices| ==> indices[k] < |s|
    ensures RemoveAll(s + [x], indices) == RemoveAll(s, indices) + [x]
    decreases |indices|
  {
    if indices != [] {
      var n := |indices| - 1;
      assert RemoveAt(s + [x], indices[n]) == RemoveAt(s, indices[n]) + [x];
      RemoveAllAppend(RemoveAt(s, indices[n]), x, indices[..n]);
    }
  }

  /** Removing the mismatching positions from the back leaves exactly the candidates `Keep` selects. */
  lemma {:induction false} RemoveMismatchesKeeps(candidates: seq<Signature>, i: nat, c: ClassName)
    requires forall s :: s in candidates ==> i < |s|
    ensures RemoveAll(candidates, Mismatches(candidates, i, c)) == Keep(candidates, i, c)
    decreases |candidates|
  {
    if candidates != [] {
      var n := |candidates| - 1;
      var front, last := candidates[..n], candidates[n];
      assert candidates == front + [last];
      RemoveMismatchesKeeps(front, i, c);
      if last[i] != c {
        RemoveLastMismatch(candidates, i, c);
        assert Keep(candidates, i, c) == Keep(front, i, c);
      } else {
        assert Mismatches(candidates, i, c) == Mismatches(front, i, c);
        assert Keep(candidates, i, c) == Keep(front, i, c) + [last];
        RemoveAllAppend(front, last, Mismatches(front, i, c));
      }
    }
  }

  lemma RemoveLastMismatch(candidates: seq<Signature>, i: nat, c: ClassName)
    requires forall s :: s in candidates ==> i < |s|
    requires candidates != [] && candidates[|candidates| - 1][i] != c
    ensures var front := candidates[..|candidates| - 1];
      RemoveAll(candidates, Mismatches(candidates, i, c)) == RemoveAll(front, Mismatches(front, i, c))
  {
    var n := |candidates| - 1;
    var m := Mismatches(candidates[..n], i, c);
    assert Mismatches(candidates, i, c) == m + [n];
    assert (m + [n])[..|m|] == m;
    assert RemoveAt(candidates, n) == candidates[..n];
  }

  /** `s` has the class the context knows at every position from `from` on. */
  predicate AgreesFrom(s: Signature, context: seq<Option<ClassName>>, from: nat)
    requires |context| <= |s|
  {
    forall k :: from <= k < |context| && context[k].Some? ==> s[k] == context[k].value
  }

  /**
   * Filters the candidates position by position from `from` on: a position
   * whose class is unknown is skipped, a single remaining candidate stops the
   * filtering, and otherwise only the candidates with the known class there stay.
   */
  function Retrieve(context: seq<Option<ClassName>>, candidates: seq<Signature>, from: nat): (r: seq<Signature>)
    requires from <= |context|
    requires forall s :: s in candidates ==> |context| <= |s|
    ensures forall s :: s in r ==> s in candidates
    ensures IsSubsequence(r, candidates)
    ensures |candidates| <= 1 ==> r == candidates
    decreases |context| - from
  {
    if from == |context| then SubsequenceReflexive(candidates); candidates
    else if context[from].None? then Retrieve(context, candidates, from + 1)
    else if |candidates| == 1 then SubsequenceReflexive(candidates); candidates
    else
      var reduced := Keep(candidates, from, context[from].value);
      var r := Retrieve(context, reduced, from + 1);
      SubsequenceTransitive(r, reduced, candidates);
      r
  }

  /** One position of the filtering: skipped when unknown, the end when one candidate is left, else a reduction. */
  lemma RetrieveStep(context: seq<Option<ClassName>>, candidates: seq<Signature>, from: nat)
    requires from < |context|
    requires forall s :: s in candidates ==> |context| <= |s|
    ensures context[from].None? ==> Retrieve(context, candidates, from) == Retrieve(context, candidates, from + 1)
    ensures context[from].Some? && |candidates| == 1 ==> Retrieve(context, candidates, from) == candidates
    ensures context[from].Some? && |candidates| != 1 ==>
      Retrieve(context, candidates, from) == Retrieve(context, Keep(candidates, from, context[from].value), from + 1)
  {
  }

  /** A candidate that agrees with the whole context is never filtered out. */
  lemma {:induction false} RetrieveKeepsAgreeing(context: seq<Option<ClassName>>, candidates: seq<Signature>, from: nat, s: Signature)
    requires from <= |context|
    requires forall t :: t in candidates ==> |context| <= |t|
    requires s in candidates && AgreesFrom(s, context, from)
    ensures s in Retrieve(context, candidates, from)
    decreases |context| - from
  {
    if from < |context| {
      if context[from].None? {
        RetrieveKeepsAgreeing(context, candidates, from + 1, s);
      } else if |candidates| != 1 {
        RetrieveKeepsAgreeing(context, Keep(candidates, from, context[from].value), from + 1, s);
      }
    }
  }

  /**
   * Unless filtering stopped at a single candidate, every survivor agrees
   * with the whole context.
   */
  lemma {:induction false} RetrieveSurvivorsAgree(context: seq<Option<ClassName>>, candidates: seq<Signature>, from: nat)
    requires from <= |context|
    requires forall t :: t in candidates ==> |context| <= |t|
    ensures var r := Retrieve(context, candidates, from);
      |r| != 1 ==> forall s :: s in r ==> AgreesFrom(s, context, from)
    decreases |context| - from
  {
    if from < |context| {
      if context[from].None? {
        RetrieveSurvivorsAgree(context, candidates, from + 1);
      } else if |candidates| != 1 {
        RetrieveSurvivorsAgree(context, Keep(candidates, from, context[from].value), from + 1);
      }
    }
  }

  /** The context knows the class of at least one argument. */
  function KnowsAnyClass(context: seq<Option<ClassName>>): (b: bool)
    ensures b <==> exists k :: 0 <= k < |context| && context[k].Some?
  {
    if context == [] then false
    else if context[0].Some? then true
    else
      assert forall k :: 1 <= k < |context| ==> context[k] == context[1..][k - 1];
      KnowsAnyClass(context[1..])
  }

  /**
   * The constructor the context singles out among the candidates, if the
   * context knows anything and exactly one candidate survives filtering.
   */
  function ByContext(context: seq<Option<ClassName>>, candidates: seq<Signature>): (r: Option<Signature>)
    requires forall s :: s in candidates ==> |context| <= |s|
    ensures r.Some? ==> r.value in candidates && KnowsAnyClass(context)
    ensures r.Some? <==> KnowsAnyClass(context) && |Retrieve(context, candidates, 0)| == 1
    ensures r.Some? ==> Retrieve(context, candidates, 0) == [r.value]
  {
    if KnowsAnyClass(context) then
      var survivors := Retrieve(context, candidates, 0);
      if |survivors| == 1 then Some(survivors[0]) else None
    else None
  }

  /** The only constructor of the right arity, or else the one the context singles out among those. */
  function SingleByContext(constructors: seq<Signature>, context: seq<Option<ClassName>>): (r: Option<Signature>)
    ensures r.Some? ==> r.value in constructors && |r.value| == |context|
    ensures |ByArity(constructors, |context|)| == 1 ==> r == Some(ByArity(constructors, |context|)[0])
  {
    var byArity := ByArity(constructors, |context|);
    if |byArity| == 1 then Some(byArity[0]) else ByContext(context, byArity)
  }

  /**
   * The constructor picked without looking at the argument ids' classes: the
   * only public constructor if there is one, else `SingleByContext`.
   */
  function Guess(constructors: seq<Signature>, context: seq<Option<ClassName>>): (r: Option<Signature>)
    ensures r.Some? ==> r.value in constructors
    ensures |constructors| == 1 ==> r == Some(constructors[0])
    ensures |constructors| != 1 && r.Some? ==> |r.value| == |context|
    ensures |constructors| != 1 && r.Some? && |ByArity(constructors, |context|)| != 1 ==> KnowsAnyClass(context)
  {
    if |constructors| == 1 then Some(constructors[0]) else SingleByContext(constructors, context)
  }

  /** A constructor that fits the context everywhere is the only one that can be guessed. */
  lemma GuessPrefersAgreeing(constructors: seq<Signature>, context: seq<Option<ClassName>>, c: Signature)
    requires c in constructors && |c| == |context| && AgreesFrom(c, context, 0)
    ensures Guess(constructors, context) == None || Guess(constructors, context) == Some(c)
  {
    var byArity := ByArity(constructors, |context|);
    if |constructors| == 1 {
      assert constructors[0] == c;
    } else if |byArity| == 1 {
      assert c in byArity;
    } else {
      assert c in byArity;
      ByContextPrefersAgreeing(context, byArity, c);
    }
  }

  /** A candidate that fits the context everywhere is the one the context singles out, if it singles out any. */
  lemma ByContextPrefersAgreeing(context: seq<Option<ClassName>>, candidates: seq<Signature>, c: Signature)
    requires forall s :: s in candidates ==> |context| <= |s|
    requires c in candidates && AgreesFrom(c, context, 0)
    ensures ByContext(context, candidates) == None || ByContext(context, candidates) == Some(c)
  {
    RetrieveKeepsAgreeing(context, candidates, 0, c);
  }

  /** Two different constructors that both fit the context make the guess fail. */
  lemma GuessAmbiguous(constructors: seq<Signature>, context: seq<Option<ClassName>>, c: Signature, d: Signature)
    requires c in constructors && d in constructors && c != d
    requires |c| == |context| && |d| == |context|
    requires AgreesFrom(c, context, 0) && AgreesFrom(d, context, 0)
    ensures Guess(constructors, context) == None
  {
    DistinctMembers(constructors, c, d);
    var byArity := ByArity(constructors, |context|);
    DistinctMembers(byArity, c, d);
    if KnowsAnyClass(context) {
      RetrieveKeepsAgreeing(context, byArity, 0, c);
      RetrieveKeepsAgreeing(context, byArity, 0, d);
      DistinctMembers(Retrieve(context, byArity, 0), c, d);
    }
  }

  /** Of two constructors of different arity, the one taking as many arguments as the context is picked. */
  lemma GuessByArity(a: Signature, b: Signature, context: seq<Option<ClassName>>)
    requires |a| == |context| && |b| != |context|
    ensures Guess([a, b], context) == Some(a)
    ensures Guess([b, a], context) == Some(a)
  {
    var n := |context|;
    assert [a, b][..1] == [a] && [b, a][..1] == [b];
    assert [a][..0] == [] && [b][..0] == [];
    assert ByArity([a], n) == [a] && ByArity([b], n) == [];
    assert ByArity([a, b], n) == [a] && ByArity([b, a], n) == [a];
  }

  /** Among several public constructors, the only one taking as many arguments as there are ids is picked. */
  lemma GuessUniqueArity(constructors: seq<Signature>, context: seq<Option<ClassName>>, c: Signature)
    requires |constructors| != 1 && ByArity(constructors, |context|) == [c]
    ensures Guess(constructors, context) == Some(c)
  {
  }

  /**
   * Among distinct candidates, one that agrees with every class the context
   * knows, and is the only one that does, is the sole survivor of filtering.
   */
  lemma RetrieveUnique(context: seq<Option<ClassName>>, candidates: seq<Signature>, c: Signature)
    requires forall s :: s in candidates ==> |context| <= |s|
    requires Distinct(candidates)
    requires c in candidates && AgreesFrom(c, context, 0)
    requires forall d :: d in candidates && AgreesFrom(d, context, 0) ==> d == c
    ensures Retrieve(context, candidates, 0) == [c]
  {
    var r := Retrieve(context, candidates, 0);
    RetrieveKeepsAgreeing(context, candidates, 0, c);
    if |r| != 1 {
      RetrieveSurvivorsAgree(context, candidates, 0);
      SubsequenceDistinct(r, candidates);
      forall k | 0 <= k < |r|
        ensures r[k] == c
      {
        assert r[k] in candidates && AgreesFrom(r[k], context, 0);
      }
      DistinctOnly(r, c);
    }
  }

  /** With a known context, that candidate is the one the context singles out. */
  lemma ByContextUnique(context: seq<Option<ClassName>>, candidates: seq<Signature>, c: Signature)
    requires forall s :: s in candidates ==> |context| <= |s|
    requires Distinct(candidates) && KnowsAnyClass(context)
    requires c in candidates && AgreesFrom(c, context, 0)
    requires forall d :: d in candidates && AgreesFrom(d, context, 0) ==> d == c
    ensures ByContext(context, candidates) == Some(c)
  {
    RetrieveUnique(context, candidates, c);
  }

  /**
   * Among distinct public constructors, the only one of the ids' arity that
   * agrees with every class the context knows is the guess.
   */
  lemma GuessUniqueAgreeing(constructors: seq<Signature>, context: seq<Option<ClassName>>, c: Signature)
    requires Distinct(constructors)
    requires c in constructors && |c| == |context| && AgreesFrom(c, context, 0)
    requires forall d :: d in constructors && |d| == |context| && AgreesFrom(d, context, 0) ==> d == c
    ensures Guess(constructors, context) == Some(c)
  {
    var byArity := ByArity(constructors, |context|);
    SubsequenceDistinct(byArity, constructors);
    assert c in byArity;
    if |constructors| == 1 {
      assert constructors[0] == c;
    } else if |byArity| == 1 {
      assert byArity[0] == c;
    } else {
      var d := if byArity[0] == c then byArity[1] else byArity[0];
      assert d in byArity && d != c;
      if KnowsAnyClass(context) {
        ByContextUnique(context, byArity, c);
      } else {
        assert false;
      }
    }
  }

  /**
   * Filtering stops as soon as one candidate is left, so the guess can
   * contradict a class the context knows: here the second position is known
   * to be `B`, yet the constructor taking `C` there is picked.
   */
  lemma GuessMayContradictContext()
    ensures Guess([["A", "C"], ["D", "B"]], [Some("A"), Some("B")]) == Some(["A", "C"])
    ensures !AgreesFrom(["A", "C"], [Some("A"), Some("B")], 0)
  {
    var cs: seq<Signature> := [["A", "C"], ["D", "B"]];
    var context := [Some("A"), Some("B")];
    assert cs[..1] == [["A", "C"]] && cs[..1][..0] == [];
    assert ByArity(cs, 2) == cs;
    assert Keep(cs, 0, "A") == [["A", "C"]];
    assert Retrieve(context, cs, 0) == [["A", "C"]];
    assert context[1].Some? && ["A", "C"][1] != context[1].value;
  }
}
