/** The two taint loops of the identifier policy checker. */
module AliasTaint {

  // ---------------------------------------------------------------- aliases in C++ text

  /** An assignment: its target, and the names that occur as words in its value. */
  datatype Assignment = Assignment(target: string, mentions: set<string>)

  /** Every assignment whose value mentions a member has its target in the set. */
  predicate Closed(assignments: seq<Assignment>, names: set<string>) {
    forall k :: 0 <= k < |assignments| && Touches(assignments[k], names) ==> assignments[k].target in names
  }

  predicate Touches(a: Assignment, names: set<string>) { exists name :: name in names && name in a.mentions }

  predicate Bounds(assignments: seq<Assignment>, seeds: set<string>, names: set<string>) {
    seeds <= names && Closed(assignments, names)
  }

  /** The smallest closed set that contains the seeds. */
  ghost predicate Least(assignments: seq<Assignment>, seeds: set<string>, names: set<string>) {
    && Bounds(assignments, seeds, names)
    && Below(assignments, seeds, names)
  }

  ghost predicate Below(assignments: seq<Assignment>, seeds: set<string>, names: set<string>) {
    forall other :: Bounds(assignments, seeds, other) ==> names <= other
  }

  /** Targets still outside the set. */
  function Outside(assignments: seq<Assignment>, names: set<string>): set<string> {
    set k | 0 <= k < |assignments| && assignments[k].target !in names :: assignments[k].target
  }

  lemma {:induction false} OutsideBound(assignments: seq<Assignment>, names: set<string>)
    ensures |Outside(assignments, names)| <= |assignments|
  {
    if assignments != [] {
      var last := |assignments| - 1;
      OutsideBound(assignments[..last], names);
      var rest := Outside(assignments[..last], names);
      assert Outside(assignments, names) <= rest + {assignments[last].target};
      Smaller(Outside(assignments, names), rest + {assignments[last].target});
    }
  }

  lemma {:induction false} Smaller<T>(a: set<T>, b: set<T>)
    requires a <= b
    ensures |a| <= |b|
    ensures a != b ==> |a| < |b|
    decreases |a|
  {
    if a != {} {
      var x :| x in a;
      Smaller(a - {x}, b - {x});
      assert (a - {x}) + {x} == a && (b - {x}) + {x} == b;
    }
  }

  /** One sweep over the assignments. */
  method Sweep(assignments: seq<Assignment>, names: set<string>, ghost seeds: set<string>)
    returns (after: set<string>, changed: bool)
    requires seeds <= names && Below(assignments, seeds, names)
    ensures names <= after && Below(assignments, seeds, after)
    ensures changed ==> |Outside(assignments, after)| < |Outside(assignments, names)|
    ensures !changed ==> after == names && Closed(assignments, names)
  {
    after, changed := names, false;
    var k := 0;
    while k < |assignments|
      invariant 0 <= k <= |assignments|
      invariant names <= after && Below(assignments, seeds, after)
      invariant !changed ==> after == names && Closed(assignments[..k], names)
      invariant changed ==> Outside(assignments, after) < Outside(assignments, names)
    {
      var a := assignments[k];
      if a.target !in after && Touches(a, after) {
        Forced(assignments, seeds, after, k);
        assert a.target in Outside(assignments, after) && a.target !in Outside(assignments, after + {a.target});
        assert Outside(assignments, after + {a.target}) <= Outside(assignments, after);
        after, changed := after + {a.target}, true;
      }
      k := k + 1;
    }
    assert assignments[..|assignments|] == assignments;
    if changed { Smaller(Outside(assignments, after), Outside(assignments, names)); }
  }

  /** A target whose value mentions a member belongs to every closed set above the seeds. */
  lemma Forced(assignments: seq<Assignment>, seeds: set<string>, names: set<string>, k: nat)
    requires Below(assignments, seeds, names) && k < |assignments| && Touches(assignments[k], names)
    ensures Below(assignments, seeds, names + {assignments[k].target})
  {
  }

  /** The alias loop: its bound is always enough, and it returns the least closed set. */
  method IdentifierNames(seeds: set<string>, assignments: seq<Assignment>) returns (names: set<string>)
    ensures Least(assignments, seeds, names)
  {
    names := seeds;
    var round := 0;
    OutsideBound(assignments, names);
    while round < |assignments| + 1
      invariant 0 <= round <= |assignments| + 1
      invariant seeds <= names && Below(assignments, seeds, names)
      invariant |Outside(assignments, names)| + round <= |assignments|
    {
      var after, changed := Sweep(assignments, names, seeds);
      names := after;
      if !changed { return; }
      round := round + 1;
    }
    assert false;
  }

  /** The order and multiplicity of the assignments do not matter. */
  lemma OrderIsIrrelevant(a: seq<Assignment>, b: seq<Assignment>, seeds: set<string>, na: set<string>, nb: set<string>)
    requires (forall x :: x in a <==> x in b) && Least(a, seeds, na) && Least(b, seeds, nb)
    ensures na == nb
  {
    SameClosed(a, b, na);
    SameClosed(a, b, nb);
    assert Bounds(b, seeds, na) && Bounds(a, seeds, nb);
  }

  lemma SameClosed(a: seq<Assignment>, b: seq<Assignment>, names: set<string>)
    requires forall x :: x in a <==> x in b
    ensures Closed(a, names) <==> Closed(b, names)
  {
    if Closed(a, names) {
      forall k | 0 <= k < |b| && Touches(b[k], names) ensures b[k].target in names {
        assert b[k] in a;
      }
    }
    if Closed(b, names) {
      forall k | 0 <= k < |a| && Touches(a[k], names) ensures a[k].target in names {
        assert a[k] in b;
      }
    }
  }

  // ---------------------------------------------------------------- parameters in Python text

  /** A parameter of a function, by name. */
  type Parameter = (string, string)

  /** The functions of a file; a name stands once, with its last definition's parameters. */
  type Signatures = seq<(string, seq<string>)>

  function AllParameters(functions: Signatures): set<Parameter> {
    set f, n | 0 <= f < |functions| && 0 <= n < |functions[f].1| :: (functions[f].0, functions[f].1[n])
  }

  function ParameterCount(functions: Signatures): nat {
    if functions == [] then 0 else ParameterCount(functions[..|functions| - 1]) + |functions[|functions| - 1].1|
  }

  /** A call of a named function, with the expressions given by position and by keyword. */
  datatype Call<E> = Call(callee: string, args: seq<E>, keywords: map<string, E>)

  /** The call gives parameter n of the function a tainted expression. */
  predicate GivesTaint<E>(call: Call<E>, taint: (set<Parameter>, E) -> bool, known: set<Parameter>, parameter: string,
                          n: nat)
  {
    || (n < |call.args| && taint(known, call.args[n]))
    || (parameter in call.keywords && taint(known, call.keywords[parameter]))
  }

  /** What one visit of the whole file discovers; which expressions count as tainted depends on the
      parameters known to be. */
  function Discovered<E>(functions: Signatures, calls: seq<Call<E>>, taint: (set<Parameter>, E) -> bool,
                                     known: set<Parameter>): set<Parameter>
  {
    set c, f, n | 0 <= c < |calls| && 0 <= f < |functions| && 0 <= n < |functions[f].1|
                  && functions[f].0 == calls[c].callee && GivesTaint(calls[c], taint, known, functions[f].1[n], n)
                :: (functions[f].0, functions[f].1[n])
  }

  lemma DiscoveredAreParameters<E>(functions: Signatures, calls: seq<Call<E>>, taint: (set<Parameter>, E) -> bool,
                                               known: set<Parameter>)
    ensures Discovered(functions, calls, taint, known) <= AllParameters(functions)
  {
  }

  lemma {:induction false} CountBounds(functions: Signatures)
    ensures |AllParameters(functions)| <= ParameterCount(functions)
  {
    if functions != [] {
      var last := |functions| - 1;
      CountBounds(functions[..last]);
      var own := set n | 0 <= n < |functions[last].1| :: (functions[last].0, functions[last].1[n]);
      OwnBound(functions[last].0, functions[last].1);
      assert AllParameters(functions) <= AllParameters(functions[..last]) + own;
      Smaller(AllParameters(functions), AllParameters(functions[..last]) + own);
    }
  }

  lemma {:induction false} OwnBound(name: string, parameters: seq<string>)
    ensures |set n | 0 <= n < |parameters| :: (name, parameters[n])| <= |parameters|
  {
    if parameters != [] {
      var last := |parameters| - 1;
      OwnBound(name, parameters[..last]);
      var before := set n | 0 <= n < last :: (name, parameters[..last][n]);
      var all := set n | 0 <= n < |parameters| :: (name, parameters[n]);
      assert all <= before + {(name, parameters[last])};
      Smaller(all, before + {(name, parameters[last])});
    }
  }

  /** The taint loop always returns from inside its bound, with violations computed from a set that
      one more visit does not extend. */
  method ScanPython<E(!new), V>(functions: Signatures, calls: seq<Call<E>>, taint: (set<Parameter>, E) -> bool,
                          violations: set<Parameter> -> V)
    returns (found: V)
    ensures exists known :: Fixpoint(functions, calls, taint, known) && found == violations(known)
  {
    var taints: set<Parameter> := {};
    CountBounds(functions);
    var round := 0;
    while round < ParameterCount(functions) + 2
      invariant 0 <= round <= |taints| && taints <= AllParameters(functions)
      invariant Grown(functions, calls, taint, taints)
    {
      var discovered := Discovered(functions, calls, taint, taints);
      DiscoveredAreParameters(functions, calls, taint, taints);
      var expanded := taints + discovered;
      if expanded == taints {
        assert Fixpoint(functions, calls, taint, taints);
        return violations(taints);
      }
      GrownStep(functions, calls, taint, taints);
      Smaller(taints, expanded);
      Smaller(expanded, AllParameters(functions));
      taints := expanded;
      round := round + 1;
    }
    Smaller(taints, AllParameters(functions));
    assert false;
  }

  /** One more visit extends the set by nothing, and nothing in it is without need. */
  ghost predicate Fixpoint<E(!new)>(functions: Signatures, calls: seq<Call<E>>, taint: (set<Parameter>, E) -> bool,
                                                known: set<Parameter>)
  {
    Discovered(functions, calls, taint, known) <= known && Grown(functions, calls, taint, known)
  }

  /** Nothing is tainted without need: when more known parameters never make less tainted, the set
      lies below every set that is closed under visits. */
  ghost predicate Grown<E(!new)>(functions: Signatures, calls: seq<Call<E>>, taint: (set<Parameter>, E) -> bool,
                                       known: set<Parameter>)
  {
    Monotone(taint) ==>
      forall other :: Discovered(functions, calls, taint, other) <= other ==> known <= other
  }

  ghost predicate Monotone<E(!new)>(taint: (set<Parameter>, E) -> bool) {
    forall a: set<Parameter>, b: set<Parameter>, e :: a <= b && taint(a, e) ==> taint(b, e)
  }

  lemma GrownStep<E(!new)>(functions: Signatures, calls: seq<Call<E>>, taint: (set<Parameter>, E) -> bool,
                                known: set<Parameter>)
    requires Grown(functions, calls, taint, known)
    ensures Grown(functions, calls, taint, known + Discovered(functions, calls, taint, known))
  {
  }
}
