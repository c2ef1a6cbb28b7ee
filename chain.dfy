/** A chain of `Array.prototype.filter` calls, each keeping the elements
    that satisfy one stage's predicate. */
module Chain {

  /** `xs.filter((x) => holds(stage, x))`. */
  function Keep<S, T>(holds: (S, T) -> bool, stage: S, xs: seq<T>): seq<T> {
    if xs == [] then []
    else (if holds(stage, xs[0]) then [xs[0]] else []) + Keep(holds, stage, xs[1..])
  }

  /** The chain, first stage first. */
  function Apply<S, T>(holds: (S, T) -> bool, stages: seq<S>, xs: seq<T>): seq<T> {
    if stages == [] then xs else Apply(holds, stages[1..], Keep(holds, stages[0], xs))
  }

  predicate AllHold<S(==), T>(holds: (S, T) -> bool, stages: seq<S>, x: T) {
    forall s :: s in stages ==> holds(s, x)
  }

  /** A single filter by the conjunction of every stage: the reference the chain is compared with. */
  function KeepAll<S(==), T(==,!new)>(holds: (S, T) -> bool, stages: seq<S>, xs: seq<T>): (r: seq<T>)
    ensures |r| <= |xs|
    ensures forall x :: x in r <==> x in xs && AllHold(holds, stages, x)
  {
    if xs == [] then []
    else
      var rest := KeepAll(holds, stages, xs[1..]);
      assert xs == [xs[0]] + xs[1..];
      (if AllHold(holds, stages, xs[0]) then [xs[0]] else []) + rest
  }

  /** `a` is `b` with some elements dropped and the rest kept in order. */
  predicate IsSubsequence<T(==)>(a: seq<T>, b: seq<T>)
    decreases |b|
  {
    a == [] || (b != [] && ((a[0] == b[0] && IsSubsequence(a[1..], b[1..])) || IsSubsequence(a, b[1..])))
  }

  /** Appending the same element to both sides, or to the longer side only,
      keeps a subsequence a subsequence. */
  lemma {:induction false} SubsequenceSnoc<T>(a: seq<T>, b: seq<T>, x: T)
    requires IsSubsequence(a, b)
    ensures IsSubsequence(a, b + [x])
    ensures IsSubsequence(a + [x], b + [x])
    decreases |b|
  {
    if b == [] {
      assert a == [];
      assert ([x] + [])[1..] == [];
      assert a + [x] == [x] && b + [x] == [x];
    } else {
      assert (b + [x])[1..] == b[1..] + [x];
      if a == [] {
        SubsequenceSnoc(a, b[1..], x);
      } else {
        assert (a + [x])[1..] == a[1..] + [x];
        if a[0] == b[0] && IsSubsequence(a[1..], b[1..]) {
          SubsequenceSnoc(a[1..], b[1..], x);
        } else {
          SubsequenceSnoc(a, b[1..], x);
        }
      }
    }
  }

  lemma {:induction false} KeepAllIsSubsequence<S, T(!new)>(holds: (S, T) -> bool, stages: seq<S>, xs: seq<T>)
    ensures IsSubsequence(KeepAll(holds, stages, xs), xs)
  {
    if xs != [] {
      KeepAllIsSubsequence(holds, stages, xs[1..]);
      var rest := KeepAll(holds, stages, xs[1..]);
      if AllHold(holds, stages, xs[0]) {
        assert ([xs[0]] + rest)[1..] == rest;
      } else {
        assert [] + rest == rest;
      }
    }
  }

  lemma {:induction false} KeepAllNoStages<S, T(!new)>(holds: (S, T) -> bool, xs: seq<T>)
    ensures KeepAll(holds, [], xs) == xs
  {
    if xs != [] {
      KeepAllNoStages(holds, xs[1..]);
    }
  }

  /** Filtering by one stage, then by the rest, is filtering by all of them. */
  lemma {:induction false} KeepThenKeepAll<S, T(!new)>(holds: (S, T) -> bool, s: S, rest: seq<S>, xs: seq<T>)
    ensures KeepAll(holds, rest, Keep(holds, s, xs)) == KeepAll(holds, [s] + rest, xs)
  {
    if xs != [] {
      KeepThenKeepAll(holds, s, rest, xs[1..]);
      assert AllHold(holds, [s] + rest, xs[0]) <==> holds(s, xs[0]) && AllHold(holds, rest, xs[0]) by {
        assert forall x :: x in [s] + rest <==> x == s || x in rest;
      }
      var tail := Keep(holds, s, xs[1..]);
      if holds(s, xs[0]) {
        assert ([xs[0]] + tail)[0] == xs[0] && ([xs[0]] + tail)[1..] == tail;
      } else {
        assert [] + tail == tail;
      }
    }
  }

  /** The chain keeps exactly the elements that pass every stage, in their
      original order. */
  lemma {:induction false} ApplyIsConjunction<S, T(!new)>(holds: (S, T) -> bool, stages: seq<S>, xs: seq<T>)
    ensures Apply(holds, stages, xs) == KeepAll(holds, stages, xs)
    ensures IsSubsequence(Apply(holds, stages, xs), xs)
    ensures forall x :: x in Apply(holds, stages, xs) <==> x in xs && AllHold(holds, stages, x)
  {
    if stages == [] {
      KeepAllNoStages(holds, xs);
    } else {
      ApplyIsConjunction(holds, stages[1..], Keep(holds, stages[0], xs));
      KeepThenKeepAll(holds, stages[0], stages[1..], xs);
      assert [stages[0]] + stages[1..] == stages;
    }
    KeepAllIsSubsequence(holds, stages, xs);
  }

  lemma {:induction false} KeepAllSameStages<S, T(!new)>(holds: (S, T) -> bool, a: seq<S>, b: seq<S>, xs: seq<T>)
    requires forall x :: AllHold(holds, a, x) <==> AllHold(holds, b, x)
    ensures KeepAll(holds, a, xs) == KeepAll(holds, b, xs)
  {
    if xs != [] {
      KeepAllSameStages(holds, a, b, xs[1..]);
    }
  }

  /** Stages listing the same predicates, in any order or repeated, filter alike. */
  lemma ApplyOrderIrrelevant<S, T(!new)>(holds: (S, T) -> bool, a: seq<S>, b: seq<S>, xs: seq<T>)
    requires forall s :: s in a <==> s in b
    ensures Apply(holds, a, xs) == Apply(holds, b, xs)
  {
    ApplyIsConjunction(holds, a, xs);
    ApplyIsConjunction(holds, b, xs);
    KeepAllSameStages(holds, a, b, xs);
  }

  /** A stage that no element passes empties the chain's result. */
  lemma ApplyUnsatisfiable<S, T(!new)>(holds: (S, T) -> bool, stages: seq<S>, s: S, xs: seq<T>)
    requires s in stages && forall x :: !holds(s, x)
    ensures Apply(holds, stages, xs) == []
  {
    ApplyIsConjunction(holds, stages, xs);
    KeepAllUnsatisfiable(holds, stages, s, xs);
  }

  lemma {:induction false} KeepAllUnsatisfiable<S, T(!new)>(holds: (S, T) -> bool, stages: seq<S>, s: S, xs: seq<T>)
    requires s in stages && forall x :: !holds(s, x)
    ensures KeepAll(holds, stages, xs) == []
  {
    if xs != [] {
      KeepAllUnsatisfiable(holds, stages, s, xs[1..]);
    }
  }
}
