/** Increasing sequences of numbers, and properties that hold stage by stage. */
module Sequences {

  /** What holds at the start and is carried from each stage to the next holds at the end. */
  lemma {:induction false} EveryStage(stages: iset<nat>, n: nat)
    requires 0 in stages && forall k: nat | k < n && k in stages :: k + 1 in stages
    ensures n in stages
  {
    if n > 0 { EveryStage(stages, n - 1); }
  }

  ghost predicate Increasing(a: seq<nat>) { forall i, j | 0 <= i < j < |a| :: a[i] < a[j] }

  ghost predicate Includes(a: seq<nat>, b: seq<nat>) { forall i | 0 <= i < |a| :: a[i] in b }

  /** Lists over the same values end in the same, largest, one. */
  lemma SameLast(a: seq<nat>, b: seq<nat>)
    requires Increasing(a) && Increasing(b) && Includes(a, b) && Includes(b, a) && a != [] && b != []
    ensures a[|a| - 1] == b[|b| - 1]
  {
    assert a[|a| - 1] in b && b[|b| - 1] in a;
  }

  /** Dropping the last entry drops the largest. */
  lemma DropLast(a: seq<nat>, b: seq<nat>)
    requires Increasing(a) && Includes(a, b) && a != [] && b != [] && a[|a| - 1] == b[|b| - 1]
    ensures Includes(a[..|a| - 1], b[..|b| - 1])
  {
    forall i | 0 <= i < |a| - 1 ensures a[i] in b[..|b| - 1] {
      var j :| 0 <= j < |b| && b[j] == a[i];
      assert b[..|b| - 1][j] == a[i];
    }
  }

  lemma NoneIncludesSome(a: seq<nat>, b: seq<nat>)
    requires Includes(a, b)
    ensures b == [] ==> a == []
  {
    if a != [] { assert a[0] in b; }
  }

  lemma {:induction false} SameIncreasing(a: seq<nat>, b: seq<nat>)
    requires Increasing(a) && Increasing(b) && Includes(a, b) && Includes(b, a)
    ensures a == b
  {
    NoneIncludesSome(a, b);
    NoneIncludesSome(b, a);
    if a != [] && b != [] {
      SameLast(a, b);
      DropLast(a, b);
      DropLast(b, a);
      SameIncreasing(a[..|a| - 1], b[..|b| - 1]);
      assert a == a[..|a| - 1] + [a[|a| - 1]] && b == b[..|b| - 1] + [b[|b| - 1]];
    }
  }
}
