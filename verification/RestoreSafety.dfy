/** Restore: refusing touches nothing, interruption keeps the tree safe, and running to the end
    gives back exactly the original tree. */
module RestoreSafety {
  import opened Wrappers
  import opened QuarantineModel
  import opened QuarantineSafety

  // ---------------------------------------------------------------- the plan

  /** On a safe disk no entry is refused: stored files go back, files at home are reconciled. */
  lemma RuleIs(env: Env, o: map<Path, Bytes>, d: Disk, batch: string, base: seq<Entry>, ms: seq<Entry>, k: nat)
    requires Apart(o, base) && TreeOk(o, d, base) && WellChosen(env, o, batch, base)
    requires ManifestOk(o, d, base, ms) && k < |ms|
    ensures Rule(env, d, batch, ms[k]) ==
            if !Recoverable(ms[k].status) then Skip
            else if InStore(o, d, base[k]) then MoveBack else Reconcile(Restored)
  {
    assert SameFile(base[k], ms[k]) && Placed(o, d, base, k);
  }

  /** After planning the first `n` entries: what is left to do is what is still stored. */
  ghost predicate PlanOk(o: map<Path, Bytes>, d: Disk, base: seq<Entry>, n: nat, es: seq<Entry>, todo: seq<nat>) {
    && n <= |base| && SameFiles(base, es)
    && (forall k | 0 <= k < |es| :: Recoverable(es[k].status) || AtHome(o, d, base[k]))
    && (forall j | 0 <= j < |todo| :: todo[j] < n && InStore(o, d, base[todo[j]]) && Recoverable(es[todo[j]].status))
    && (forall i, j | 0 <= i < j < |todo| :: todo[i] < todo[j])
    && (forall k | 0 <= k < n && InStore(o, d, base[k]) :: k in todo)
  }

  /** The plan covers the first `n` entries of manifest `ms` and has not touched the rest. */
  ghost predicate PlanFor(o: map<Path, Bytes>, d: Disk, base: seq<Entry>, ms: seq<Entry>, n: nat, p: Plan) {
    && p.Ready? && PlanOk(o, d, base, n, p.entries, p.todo) && |p.entries| == |ms|
    && forall k | n <= k < |ms| :: p.entries[k] == ms[k]
  }

  lemma PlanExtends(o: map<Path, Bytes>, d: Disk, base: seq<Entry>, ms: seq<Entry>, n: nat, p: Plan, ruling: Ruling)
    requires PlanFor(o, d, base, ms, n, p) && n < |ms|
    requires AtHome(o, d, base[n]) || InStore(o, d, base[n])
    requires ruling == if !Recoverable(ms[n].status) then Skip
                       else if InStore(o, d, base[n]) then MoveBack else Reconcile(Restored)
    ensures PlanFor(o, d, base, ms, n + 1, Extend(p, n, ruling))
  {
  }

  lemma PlanStarts(o: map<Path, Bytes>, d: Disk, base: seq<Entry>, ms: seq<Entry>)
    requires ManifestOk(o, d, base, ms)
    ensures PlanFor(o, d, base, ms, 0, Ready(ms, []))
  {
  }

  /** Entry `k` is somewhere, and restore rules on it accordingly. */
  ghost predicate RuledAt(env: Env, o: map<Path, Bytes>, d: Disk, batch: string, base: seq<Entry>, ms: seq<Entry>,
                          k: nat)
    requires k < |ms| == |base|
  {
    && (AtHome(o, d, base[k]) || InStore(o, d, base[k]))
    && Rule(env, d, batch, ms[k]) ==
       if !Recoverable(ms[k].status) then Skip else if InStore(o, d, base[k]) then MoveBack else Reconcile(Restored)
  }

  lemma {:induction false} PlanIs(env: Env, o: map<Path, Bytes>, d: Disk, batch: string,
                                  base: seq<Entry>, ms: seq<Entry>, n: nat)
    requires ManifestOk(o, d, base, ms) && n <= |ms|
    requires forall k | 0 <= k < |ms| :: RuledAt(env, o, d, batch, base, ms, k)
    ensures PlanFor(o, d, base, ms, n, PlanRestore(env, d, batch, ms, n))
  {
    if n == 0 {
      PlanStarts(o, d, base, ms);
    } else {
      PlanIs(env, o, d, batch, base, ms, n - 1);
      assert RuledAt(env, o, d, batch, base, ms, n - 1);
      PlanExtends(o, d, base, ms, n - 1, PlanRestore(env, d, batch, ms, n - 1), Rule(env, d, batch, ms[n - 1]));
    }
  }

  lemma PlanOfSafe(env: Env, o: map<Path, Bytes>, d: Disk, batch: string, base: seq<Entry>, ms: seq<Entry>)
    requires Apart(o, base) && TreeOk(o, d, base) && WellChosen(env, o, batch, base)
    requires ManifestOk(o, d, base, ms)
    ensures PlanFor(o, d, base, ms, |ms|, PlanRestore(env, d, batch, ms, |ms|))
  {
    forall k | 0 <= k < |ms| ensures RuledAt(env, o, d, batch, base, ms, k) {
      RuleIs(env, o, d, batch, base, ms, k);
      assert Placed(o, d, base, k);
    }
    PlanIs(env, o, d, batch, base, ms, |ms|);
  }

  // ---------------------------------------------------------------- the moves

  /** Ready to move `todo` back: those are stored, everything else is at home. */
  ghost predicate Returning(o: map<Path, Bytes>, d: Disk, base: seq<Entry>, es: seq<Entry>, todo: seq<nat>) {
    && Apart(o, base) && TreeOk(o, d, base) && SameFiles(base, es)
    && (forall j | 0 <= j < |todo| :: todo[j] < |es| && InStore(o, d, base[todo[j]]) && Recoverable(es[todo[j]].status))
    && (forall i, j | 0 <= i < j < |todo| :: todo[i] != todo[j])
    && (forall k | 0 <= k < |es| && k !in todo :: AtHome(o, d, base[k]))
  }

  lemma ReturningIsOk(o: map<Path, Bytes>, d: Disk, base: seq<Entry>, es: seq<Entry>, todo: seq<nat>)
    requires Returning(o, d, base, es, todo)
    ensures ManifestOk(o, d, base, es)
  {
  }

  /** A manifest write, finished or not, keeps a safe tree safe. */
  lemma WriteSafe(env: Env, o: map<Path, Bytes>, d: Disk, clock: nat, base: seq<Entry>, es: seq<Entry>)
    requires Apart(o, base) && TreeOk(o, d, base) && ManifestOk(o, d, base, es)
    requires d.manifest.Some? && ManifestOk(o, d, base, d.manifest.value)
    ensures var w := AtomicWrite(env, d, clock, es);
            && Safe(o, w.disk, base) && w.disk.files == d.files && w.disk.manifest.Some?
            && (w.exit == Finished ==> w.disk.manifest == Some(es))
  {
    var w := AtomicWrite(env, d, clock, es);
    TreeSame(o, d, w.disk, base);
    ManifestSame(o, d, w.disk, base, es);
    ManifestSame(o, d, w.disk, base, d.manifest.value);
  }

  lemma ReturnedOne(env: Env, o: map<Path, Bytes>, d: Disk, clock: nat, base: seq<Entry>, es: seq<Entry>,
                    todo: seq<nat>)
    requires Returning(o, d, base, es, todo) && todo != []
    requires d.manifest.Some? && ManifestOk(o, d, base, d.manifest.value)
    ensures var back := MoveFile(env, d, clock, es[todo[0]].stored, es[todo[0]].path);
            && back.disk.manifest == d.manifest
            && (back.exit != Finished ==> back.disk == d)
            && (back.exit == Finished ==>
                  && Returning(o, back.disk, base, SetStatus(es, todo[0], Restored), todo[1..])
                  && ManifestOk(o, back.disk, base, d.manifest.value))
  {
    var k := todo[0];
    assert SameFile(base[k], es[k]);
    var back := MoveFile(env, d, clock, es[k].stored, es[k].path);
    if back.exit == Finished {
      MovedOnly(o, d, back.disk, base, k, false);
      OthersHome(o, d, back.disk, base, es, todo);
    }
  }

  lemma OthersHome(o: map<Path, Bytes>, d: Disk, d': Disk, base: seq<Entry>, es: seq<Entry>, todo: seq<nat>)
    requires Returning(o, d, base, es, todo) && todo != [] && AtHome(o, d', base[todo[0]])
    requires forall i | 0 <= i < |base| && i != todo[0] :: AtHome(o, d, base[i]) ==> AtHome(o, d', base[i])
    ensures forall i | 0 <= i < |es| && i !in todo[1..] :: AtHome(o, d', base[i])
  {
    forall i | 0 <= i < |es| && i !in todo[1..] ensures AtHome(o, d', base[i]) {
      assert todo == [todo[0]] + todo[1..];
    }
  }

  /** However the moves back go, the tree stays safe, and if they finish every file is home. */
  lemma {:induction false} MoveBackSafe(env: Env, o: map<Path, Bytes>, d: Disk, clock: nat, base: seq<Entry>,
                                        es: seq<Entry>, todo: seq<nat>)
    requires Returning(o, d, base, es, todo)
    requires d.manifest.Some? && ManifestOk(o, d, base, d.manifest.value)
    ensures var r := MoveBackFrom(env, d, clock, es, todo);
            && Safe(o, r.disk, base) && r.disk.manifest.Some?
            && (r.exit == Finished ==> forall k | 0 <= k < |base| :: AtHome(o, r.disk, base[k]))
    decreases |todo|
  {
    if todo == [] {
      ReturningIsOk(o, d, base, es, todo);
      WriteSafe(env, o, d, clock, base, es);
      TreeSame(o, d, AtomicWrite(env, d, clock, es).disk, base);
    } else {
      ReturnedOne(env, o, d, clock, base, es, todo);
      var back := MoveFile(env, d, clock, es[todo[0]].stored, es[todo[0]].path);
      match back.exit
      case Crashed =>
      case Error =>
        ReturningIsOk(o, d, base, es, todo);
        WriteSafe(env, o, d, back.clock, base, es);
      case Finished =>
        var es' := SetStatus(es, todo[0], Restored);
        ReturningIsOk(o, back.disk, base, es', todo[1..]);
        WriteSafe(env, o, back.disk, back.clock, base, es');
        var w := AtomicWrite(env, back.disk, back.clock, es');
        if w.exit == Finished {
          TreeSame(o, back.disk, w.disk, base);
          MoveBackSafe(env, o, w.disk, w.clock, base, es', todo[1..]);
        }
    }
  }

  lemma AllHome(o: map<Path, Bytes>, d: Disk, base: seq<Entry>)
    requires Apart(o, base) && TreeOk(o, d, base) && forall k | 0 <= k < |base| :: AtHome(o, d, base[k])
    ensures d.files == o
  {
    forall q ensures q in d.files <==> q in o
             ensures q in o ==> d.files[q] == o[q]
    {
      assert Untouched(o, d, base, q);
    }
  }

  /** One restore of a safe disk: whatever happens it stays safe; if it finishes, the tree is
      the original one. */
  lemma RestoreSafe(env: Env, o: map<Path, Bytes>, d: Disk, clock: nat, batch: string, base: seq<Entry>)
    requires Safe(o, d, base) && WellChosen(env, o, batch, base)
    ensures var r := Restore(env, d, clock, batch);
            && Safe(o, r.disk, base) && r.disk.manifest.Some? == d.manifest.Some?
            && (r.exit == Finished ==> r.disk.files == o)
  {
    if d.manifest.Some? {
      var ms := d.manifest.value;
      PlanOfSafe(env, o, d, batch, base, ms);
      var p := PlanRestore(env, d, batch, ms, |ms|);
      PlanReturns(o, d, base, p.entries, p.todo);
      MoveBackSafe(env, o, d, clock, base, p.entries, p.todo);
      var r := Restore(env, d, clock, batch);
      if r.exit == Finished { AllHome(o, r.disk, base); }
    }
  }

  lemma PlanReturns(o: map<Path, Bytes>, d: Disk, base: seq<Entry>, es: seq<Entry>, todo: seq<nat>)
    requires Apart(o, base) && TreeOk(o, d, base) && PlanOk(o, d, base, |base|, es, todo)
    ensures Returning(o, d, base, es, todo)
  {
    forall k | 0 <= k < |es| && k !in todo ensures AtHome(o, d, base[k]) { assert Placed(o, d, base, k); }
  }

  // ---------------------------------------------------------------- whole histories

  /** A string of restores, each under its own fault schedule, from the disk the last one left. */
  function RestoreAll(envs: seq<Env>, d: Disk, batch: string): Disk {
    if envs == [] then d
    else RestoreAll(envs[1..], Restore(envs[0], d, 0, batch).disk, batch)
  }

  lemma {:induction false} RestoreAllSafe(envs: seq<Env>, o: map<Path, Bytes>, d: Disk, batch: string, base: seq<Entry>)
    requires Safe(o, d, base) && forall n | 0 <= n < |envs| :: WellChosen(envs[n], o, batch, base)
    ensures Safe(o, RestoreAll(envs, d, batch), base)
    ensures RestoreAll(envs, d, batch).manifest.Some? == d.manifest.Some?
  {
    if envs != [] {
      RestoreSafe(envs[0], o, d, 0, batch, base);
      RestoreAllSafe(envs[1..], o, Restore(envs[0], d, 0, batch).disk, batch, base);
    }
  }

  /** Nothing fails from step `clock` on. */
  ghost predicate FaultFree(env: Env, clock: nat) { forall n: nat | n >= clock :: env.fates(n) == Done }

  lemma {:induction false} MoveBackFinishes(env: Env, o: map<Path, Bytes>, d: Disk, clock: nat, base: seq<Entry>,
                                            es: seq<Entry>, todo: seq<nat>)
    requires Returning(o, d, base, es, todo) && FaultFree(env, clock)
    requires d.manifest.Some? && ManifestOk(o, d, base, d.manifest.value)
    ensures MoveBackFrom(env, d, clock, es, todo).exit == Finished
    decreases |todo|
  {
    if todo != [] {
      assert SameFile(base[todo[0]], es[todo[0]]);
      ReturnedOne(env, o, d, clock, base, es, todo);
      var back := MoveFile(env, d, clock, es[todo[0]].stored, es[todo[0]].path);
      var es' := SetStatus(es, todo[0], Restored);
      ReturningIsOk(o, back.disk, base, es', todo[1..]);
      WriteSafe(env, o, back.disk, back.clock, base, es');
      var w := AtomicWrite(env, back.disk, back.clock, es');
      TreeSame(o, back.disk, w.disk, base);
      MoveBackFinishes(env, o, w.disk, w.clock, base, es', todo[1..]);
    }
  }

  /** With no fault left to strike, restore of a safe disk always finishes. */
  lemma RestoreFinishes(env: Env, o: map<Path, Bytes>, d: Disk, clock: nat, batch: string, base: seq<Entry>)
    requires Safe(o, d, base) && WellChosen(env, o, batch, base) && d.manifest.Some? && FaultFree(env, clock)
    ensures Restore(env, d, clock, batch).exit == Finished
  {
    var ms := d.manifest.value;
    PlanOfSafe(env, o, d, batch, base, ms);
    var p := PlanRestore(env, d, batch, ms, |ms|);
    PlanReturns(o, d, base, p.entries, p.todo);
    MoveBackFinishes(env, o, d, clock, base, p.entries, p.todo);
  }

  /** Every selected file is at exactly one of its two places. */
  ghost predicate OnePlaceEach(o: map<Path, Bytes>, d: Disk, es: seq<Entry>) {
    forall k | 0 <= k < |es| :: AtHome(o, d, es[k]) != InStore(o, d, es[k])
  }

  lemma SafeIsOnePlace(o: map<Path, Bytes>, d: Disk, es: seq<Entry>)
    requires Safe(o, d, es)
    ensures OnePlaceEach(o, d, es)
  {
    forall k | 0 <= k < |es| ensures AtHome(o, d, es[k]) != InStore(o, d, es[k]) { assert Placed(o, d, es, k); }
  }

  /** A last restore that meets no fault, on any safe disk. */
  lemma LastRestore(calm: Env, o: map<Path, Bytes>, d: Disk, batch: string, es: seq<Entry>)
    requires Safe(o, d, es) && WellChosen(calm, o, batch, es) && FaultFree(calm, 0)
    ensures d.manifest.Some? ==>
              Restore(calm, d, 0, batch).exit == Finished && Restore(calm, d, 0, batch).disk.files == o
    ensures d.manifest.None? ==> d.files == o
  {
    if d.manifest.Some? {
      RestoreSafe(calm, o, d, 0, batch, es);
      RestoreFinishes(calm, o, d, 0, batch, es);
    } else {
      AllHome(o, d, es);
    }
  }

  lemma AnyRestores(envs: seq<Env>, calm: Env, o: map<Path, Bytes>, d: Disk, batch: string, es: seq<Entry>)
    requires Safe(o, d, es) && forall n | 0 <= n < |envs| :: WellChosen(envs[n], o, batch, es)
    requires WellChosen(calm, o, batch, es) && FaultFree(calm, 0)
    ensures var mid := RestoreAll(envs, d, batch);
            && OnePlaceEach(o, d, es) && OnePlaceEach(o, mid, es) && mid.manifest.Some? == d.manifest.Some?
            && (d.manifest.Some? ==>
                  Restore(calm, mid, 0, batch).exit == Finished && Restore(calm, mid, 0, batch).disk.files == o)
            && (d.manifest.None? ==> mid.files == o)
  {
    RestoreAllSafe(envs, o, d, batch, es);
    SafeIsOnePlace(o, d, es);
    SafeIsOnePlace(o, RestoreAll(envs, d, batch), es);
    LastRestore(calm, o, RestoreAll(envs, d, batch), batch, es);
  }

  /** Main theorem.  Quarantine under any faults, then any number of restores under any faults,
      then one restore that meets no fault: the tree is byte for byte what it was, and no
      selected file was ever anywhere but at exactly one of its two places. */
  lemma NothingIsEverLost(env: Env, envs: seq<Env>, calm: Env, d: Disk, batch: string,
                          items: seq<(Path, Digest)>, eligible: map<Path, Digest>, rechecked: map<Path, Digest>)
    requires Selected(env, d, batch, items, eligible)
    requires forall n | 0 <= n < |envs| :: WellChosen(envs[n], d.files, batch, Entries(batch, items))
    requires WellChosen(calm, d.files, batch, Entries(batch, items)) && FaultFree(calm, 0)
    ensures var es := Entries(batch, items);
            var q := Quarantine(env, d, 0, batch, items, eligible, rechecked).ran.disk;
            var mid := RestoreAll(envs, q, batch);
            && OnePlaceEach(d.files, q, es) && OnePlaceEach(d.files, mid, es)
            && (if q.manifest.Some? then
                  var last := Restore(calm, mid, 0, batch);
                  last.exit == Finished && last.disk.files == d.files
                else mid.files == d.files)
  {
    QuarantineSafe(env, d, 0, batch, items, eligible, rechecked);
    var q := Quarantine(env, d, 0, batch, items, eligible, rechecked).ran.disk;
    AnyRestores(envs, calm, d.files, q, batch, Entries(batch, items));
  }

  /** A restore that refuses any entry has moved nothing and written nothing, on any disk. */
  lemma RefusalTouchesNothing(env: Env, d: Disk, clock: nat, batch: string, k: nat)
    requires d.manifest.Some? && k < |d.manifest.value| && Rule(env, d, batch, d.manifest.value[k]) == Refuse
    ensures Restore(env, d, clock, batch) == Ran(d, clock, Error)
  {
    RefusalStops(env, d, batch, d.manifest.value, k, |d.manifest.value|);
  }

  lemma {:induction false} RefusalStops(env: Env, d: Disk, batch: string, es: seq<Entry>, k: nat, n: nat)
    requires k < n <= |es| && Rule(env, d, batch, es[k]) == Refuse
    ensures PlanRestore(env, d, batch, es, n) == Refused
  {
    if k < n - 1 { RefusalStops(env, d, batch, es, k, n - 1); }
  }

  lemma NothingToDo(o: map<Path, Bytes>, d: Disk, base: seq<Entry>, n: nat, es: seq<Entry>, todo: seq<nat>)
    requires PlanOk(o, d, base, n, es, todo) && d.files == o
    ensures todo == []
  {
    assert |todo| > 0 ==> InStore(o, d, base[todo[0]]);
  }

  /** Once the tree is back, a further restore changes no file, whatever happens to it. */
  lemma RestoredStays(env: Env, o: map<Path, Bytes>, d: Disk, clock: nat, batch: string, base: seq<Entry>)
    requires Safe(o, d, base) && WellChosen(env, o, batch, base) && d.files == o
    ensures Restore(env, d, clock, batch).disk.files == o
  {
    if d.manifest.Some? {
      var ms := d.manifest.value;
      PlanOfSafe(env, o, d, batch, base, ms);
      var p := PlanRestore(env, d, batch, ms, |ms|);
      NothingToDo(o, d, base, |ms|, p.entries, p.todo);
    }
  }
}
