/** What a quarantine that was not killed has done: all or nothing up to rollback failures, and
    exactly when the manifest it leaves tells the truth. */
module QuarantineOutcome {
  import opened Wrappers
  import opened QuarantineModel
  import opened QuarantineSafety

  predicate SaysStored(s: Status) { s == Moved || s == RollbackFailed }

  /** The entries say of every file where it is. */
  ghost predicate Truthful(o: map<Path, Bytes>, d: Disk, base: seq<Entry>, es: seq<Entry>) {
    && SameFiles(base, es)
    && forall k | 0 <= k < |base| ::
         if SaysStored(es[k].status) then InStore(o, d, base[k]) else AtHome(o, d, base[k])
  }

  /** Entries before `i` are listed as moved, the rest as planned. */
  ghost predicate ListsMoved(base: seq<Entry>, ms: seq<Entry>, i: nat) {
    SameFiles(base, ms) && forall k | 0 <= k < |base| :: ms[k].status == if k < i then Moved else Planned
  }

  /** After a failure at entry `i` and the rollback that follows. */
  ghost predicate FailedOutcome(o: map<Path, Bytes>, q: Quarantined, base: seq<Entry>, i: nat) {
    && i < |base| == |q.memory| && q.failedAt == Some(i) && q.ran.exit == Error
    && (forall k | 0 <= k < |base| :: q.memory[k].status != Moved)
    && q.ran.disk.manifest.Some?
    && (if q.closed then q.ran.disk.manifest == Some(q.memory) else ListsMoved(base, q.ran.disk.manifest.value, i))
  }

  ghost predicate Outcome(o: map<Path, Bytes>, q: Quarantined, base: seq<Entry>) {
    && |q.memory| == |base| && Truthful(o, q.ran.disk, base, q.memory)
    && (if q.failedAt.None? then
          && ListsMoved(base, q.memory, |base|)
          && q.ran.disk.manifest.Some? && ListsMoved(base, q.ran.disk.manifest.value, |base|)
        else FailedOutcome(o, q, base, q.failedAt.value))
  }

  /** When the rollback loop is through, memory is truthful and no entry is listed as moved. */
  lemma RolledIsTruthful(o: map<Path, Bytes>, d: Disk, d': Disk, base: seq<Entry>, es: seq<Entry>, m: nat)
    requires Rolling(o, d, base, es, m, m) && d'.files == d.files
    ensures Truthful(o, d', base, es) && forall k | 0 <= k < |base| :: es[k].status != Moved
  {
    forall k | 0 <= k < |base|
      ensures es[k].status != Moved
      ensures if SaysStored(es[k].status) then InStore(o, d', base[k]) else AtHome(o, d', base[k])
    {
      assert RollsAt(o, d, base, es, m, m, k);
    }
  }

  lemma RollBackOutcome(env: Env, o: map<Path, Bytes>, d: Disk, clock: nat, base: seq<Entry>,
                        es: seq<Entry>, m: nat, i: nat)
    requires Rolling(o, d, base, es, 0, m) && i < |base|
    requires d.manifest.Some? && ListsMoved(base, d.manifest.value, i)
    ensures var q := RollBack(env, d, clock, es, m, i); q.ran.exit == Crashed || Outcome(o, q, base)
  {
    var (back, es') := PutBack(env, d, clock, es, 0, m);
    PutBackRolls(env, o, d, clock, base, es, 0, m);
    if back.exit != Crashed {
      RolledIsTruthful(o, back.disk, AtomicWrite(env, back.disk, back.clock, es').disk, base, es', m);
      ClosedOutcome(env, o, back.disk, back.clock, base, es', i);
    }
  }

  lemma ClosedOutcome(env: Env, o: map<Path, Bytes>, d: Disk, clock: nat, base: seq<Entry>, es: seq<Entry>, i: nat)
    requires i < |base| && d.manifest.Some? && ListsMoved(base, d.manifest.value, i)
    requires Truthful(o, AtomicWrite(env, d, clock, es).disk, base, es)
    requires forall k | 0 <= k < |base| :: es[k].status != Moved
    ensures var w := AtomicWrite(env, d, clock, es);
            w.exit == Crashed || Outcome(o, Quarantined(w.(exit := Error), es, Some(i), w.exit == Finished), base)
  {
  }

  lemma MovedIsTruthful(o: map<Path, Bytes>, d: Disk, base: seq<Entry>, es: seq<Entry>, i: nat)
    requires Moving(o, d, base, es, i)
    ensures Truthful(o, d, base, es) && ListsMoved(base, es, i)
  {
    forall k | 0 <= k < |base|
      ensures es[k].status == if k < i then Moved else Planned
      ensures if k < i then InStore(o, d, base[k]) else AtHome(o, d, base[k])
    {
      assert RollsAt(o, d, base, es, 0, i, k);
    }
  }

  /** The turn failed before anything moved. */
  lemma NotMovedOutcome(env: Env, o: map<Path, Bytes>, d: Disk, clock: nat, base: seq<Entry>, es: seq<Entry>, i: nat)
    requires Moving(o, d, base, es, i) && d.manifest == Some(es) && i < |es|
    ensures var q := RollBack(env, d, clock, es, i, i); q.ran.exit == Crashed || Outcome(o, q, base)
  {
    MovedIsTruthful(o, d, base, es, i);
    RollBackOutcome(env, o, d, clock, base, es, i, i);
  }

  /** The entry moved but the manifest still shows it as planned. */
  lemma NotRecordedOutcome(env: Env, o: map<Path, Bytes>, d: Disk, clock: nat, base: seq<Entry>, es: seq<Entry>, i: nat)
    requires Moving(o, d, base, es, i + 1) && i < |es|
    requires d.manifest.Some? && ListsMoved(base, d.manifest.value, i)
    ensures var w := AtomicWrite(env, d, clock, es);
            var q := RollBack(env, w.disk, w.clock, es, i + 1, i);
            w.exit != Error || q.ran.exit == Crashed || Outcome(o, q, base)
  {
    var w := AtomicWrite(env, d, clock, es);
    if w.exit == Error {
      RollingSame(o, d, w.disk, base, es, 0, i + 1);
      RollBackOutcome(env, o, w.disk, w.clock, base, es, i + 1, i);
    }
  }

  lemma TurnOutcome(env: Env, o: map<Path, Bytes>, d: Disk, clock: nat, base: seq<Entry>, es: seq<Entry>, i: nat)
    requires Moving(o, d, base, es, i) && d.manifest == Some(es) && i < |es|
    ensures var turn := MoveTurn(env, d, clock, es, i);
            turn.Next? || turn.result.ran.exit == Crashed || Outcome(o, turn.result, base)
  {
    MovedIsTruthful(o, d, base, es, i);
    MovedOne(env, o, d, clock, base, es, i);
    NotMovedOutcome(env, o, d, clock, base, es, i);
    NotMovedOutcome(env, o, d, clock + 1, base, es, i);
    var moved := MoveFile(env, d, clock, es[i].path, es[i].stored);
    if moved.exit == Finished {
      NotRecordedOutcome(env, o, moved.disk, moved.clock, base, SetStatus(es, i, Moved), i);
    }
  }

  lemma EndOutcome(env: Env, o: map<Path, Bytes>, d: Disk, clock: nat, base: seq<Entry>, es: seq<Entry>)
    requires Moving(o, d, base, es, |es|) && Unresolved(d, base) && d.manifest == Some(es)
    ensures var w := AtomicWrite(env, d, clock, es);
            w.exit == Crashed || Outcome(o, Quarantined(w, es, None, w.exit == Finished), base)
  {
    RollingSame(o, d, AtomicWrite(env, d, clock, es).disk, base, es, 0, |es|);
    MovedIsTruthful(o, d, base, es, |es|);
    MovedIsTruthful(o, AtomicWrite(env, d, clock, es).disk, base, es, |es|);
  }

  lemma {:induction false} MoveFromOutcome(env: Env, o: map<Path, Bytes>, d: Disk, clock: nat, base: seq<Entry>,
                                           es: seq<Entry>, i: nat)
    requires Moving(o, d, base, es, i) && d.manifest == Some(es) && Unresolved(d, base)
    ensures var q := MoveFrom(env, d, clock, es, i); q.ran.exit == Crashed || Outcome(o, q, base)
    decreases |es| - i
  {
    if i == |es| {
      EndOutcome(env, o, d, clock, base, es);
    } else {
      TurnSafe(env, o, d, clock, base, es, i);
      TurnOutcome(env, o, d, clock, base, es, i);
      var turn := MoveTurn(env, d, clock, es, i);
      if turn.Next? { MoveFromOutcome(env, o, turn.disk, turn.clock, base, turn.es, i + 1); }
    }
  }

  /** The moves were started: selection valid, manifest down, verdict confirmed. */
  ghost predicate Started(env: Env, d: Disk, clock: nat, batch: string, items: seq<(Path, Digest)>,
                          eligible: map<Path, Digest>, rechecked: map<Path, Digest>)
  {
    && Selected(env, d, batch, items, eligible) && StillEligible(items, rechecked)
    && AtomicWrite(env, d, clock, Entries(batch, items)).exit == Finished
  }

  lemma StartedOutcome(env: Env, d: Disk, clock: nat, batch: string, items: seq<(Path, Digest)>,
                       eligible: map<Path, Digest>, rechecked: map<Path, Digest>)
    requires Started(env, d, clock, batch, items, eligible, rechecked)
    ensures var q := Quarantine(env, d, clock, batch, items, eligible, rechecked);
            q.ran.exit == Crashed || Outcome(d.files, q, Entries(batch, items))
  {
    var es := Entries(batch, items);
    SelectionApart(env, d, batch, items, eligible);
    var w := AtomicWrite(env, d, clock, es);
    TreeSame(d.files, d, w.disk, es);
    MoveFromOutcome(env, d.files, w.disk, w.clock, es, es, 0);
  }

  ghost predicate NoneStuck(es: seq<Entry>) { forall k | 0 <= k < |es| :: es[k].status != RollbackFailed }

  /** All or nothing: unless it was killed or a rollback move failed, a quarantine has moved
      every selected file or none of them. */
  lemma AllOrNothing(env: Env, d: Disk, clock: nat, batch: string, items: seq<(Path, Digest)>,
                     eligible: map<Path, Digest>, rechecked: map<Path, Digest>)
    requires Started(env, d, clock, batch, items, eligible, rechecked)
    ensures var q := Quarantine(env, d, clock, batch, items, eligible, rechecked);
            var es := Entries(batch, items);
            q.ran.exit != Crashed && NoneStuck(q.memory) ==>
              if q.failedAt.None? then forall k | 0 <= k < |es| :: InStore(d.files, q.ran.disk, es[k])
              else forall k | 0 <= k < |es| :: AtHome(d.files, q.ran.disk, es[k])
  {
    StartedOutcome(env, d, clock, batch, items, eligible, rechecked);
  }

  /** The manifest left behind is truthful exactly when the closing write of a failed run
      reached the disk, or the run did not fail, or the rollback happened to leave in the store
      just the entries recorded as moved before the failure. */
  lemma ManifestTruthfulIff(env: Env, d: Disk, clock: nat, batch: string, items: seq<(Path, Digest)>,
                            eligible: map<Path, Digest>, rechecked: map<Path, Digest>)
    requires Started(env, d, clock, batch, items, eligible, rechecked)
    ensures var q := Quarantine(env, d, clock, batch, items, eligible, rechecked);
            var es := Entries(batch, items);
            q.ran.exit != Crashed ==>
              && q.ran.disk.manifest.Some? && |q.memory| == |es|
              && (Truthful(d.files, q.ran.disk, es, q.ran.disk.manifest.value) <==>
                    || q.closed || q.failedAt.None?
                    || (forall k | 0 <= k < |es| :: k < q.failedAt.value <==> q.memory[k].status == RollbackFailed))
  {
    StartedOutcome(env, d, clock, batch, items, eligible, rechecked);
    var q := Quarantine(env, d, clock, batch, items, eligible, rechecked);
    if q.ran.exit != Crashed { TruthfulIff(d.files, q, Entries(batch, items)); }
  }

  lemma TruthfulIff(o: map<Path, Bytes>, q: Quarantined, base: seq<Entry>)
    requires Outcome(o, q, base)
    ensures q.ran.disk.manifest.Some?
    ensures Truthful(o, q.ran.disk, base, q.ran.disk.manifest.value) <==>
              || q.closed || q.failedAt.None?
              || (forall k | 0 <= k < |base| :: k < q.failedAt.value <==> q.memory[k].status == RollbackFailed)
  {
  }

  // ---------------------------------------------------------------- a manifest that does not match

  const FirstCache := "app/__pycache__/first.pyc"
  const SecondCache := "app/__pycache__/second.pyc"

  /** The second move and the closing write fail; everything else works. */
  const TwoFaults :=
    Env(b => "d", p => p in {FirstCache, SecondCache}, {}, n => if n == 5 || n == 7 then Fails else Done)
  const TwoFiles := Disk(map[FirstCache := [], SecondCache := []], None, false)
  const BothItems := [(FirstCache, "d"), (SecondCache, "d")]
  const BothEligible := map[FirstCache := "d", SecondCache := "d"]

  lemma CachesApart()
    ensures FirstCache != SecondCache && !ToolArtifact(FirstCache) && !ToolArtifact(SecondCache)
    ensures forall batch, p :: StoredPath(batch, p) != FirstCache && StoredPath(batch, p) != SecondCache
  {
    assert FirstCache[16] == 'f' && SecondCache[16] == 's';
    assert StorePrefix[0] == 'r' && FirstCache[0] == 'a' && SecondCache[0] == 'a';
    forall batch, p ensures StoredPath(batch, p) != FirstCache && StoredPath(batch, p) != SecondCache {
      assert StoredPath(batch, p)[0] == 'r' && FirstCache[0] == 'a' && SecondCache[0] == 'a';
    }
  }

  lemma BothSelected()
    ensures Selected(TwoFaults, TwoFiles, "x", BothItems, BothEligible)
  {
    CachesApart();
    StoredPathsApart("x", FirstCache, SecondCache);
  }

  /** The turns on both items. */
  lemma BothTurns(es: seq<Entry>) returns (q: Quarantined)
    requires es == Entries("x", BothItems)
    ensures q == MoveFrom(TwoFaults, TwoFiles.(manifest := Some(es), temp := false), 2, es, 0)
    ensures q.ran.exit == Error && q.ran.disk.files == TwoFiles.files
    ensures q.ran.disk.manifest == Some(SetStatus(es, 0, Moved))
  {
    CachesApart();
    StoredPathsApart("x", FirstCache, SecondCache);
    TwoTurns(TwoFaults, TwoFiles, es, es[0], es[1]);
    q := MoveFrom(TwoFaults, TwoFiles.(manifest := Some(es), temp := false), 2, es, 0);
  }

  /** A failed quarantine can leave a manifest that calls a file moved although it is back at
      home: the second move fails, the first is rolled back, and the closing write fails too. */
  lemma ManifestCanLie()
    ensures Selected(TwoFaults, TwoFiles, "x", BothItems, BothEligible)
    ensures var q := Quarantine(TwoFaults, TwoFiles, 0, "x", BothItems, BothEligible, BothEligible);
            && q.ran.exit == Error && q.ran.disk.files == TwoFiles.files
            && q.ran.disk.manifest.Some? && |q.ran.disk.manifest.value| == 2
            && q.ran.disk.manifest.value[0].status == Moved
            && !Truthful(TwoFiles.files, q.ran.disk, Entries("x", BothItems), q.ran.disk.manifest.value)
  {
    BothSelected();
    var q := BothTurns(Entries("x", BothItems));
  }

  /** One entry moved and recorded, the next one not moved, the first one back, nothing written. */
  lemma TwoTurns(env: Env, d: Disk, es: seq<Entry>, a: Entry, b: Entry)
    requires es == [a, b] && a.path in d.files && b.path in d.files && d.files.Keys == {a.path, b.path}
    requires a.path != b.path && a.stored != b.stored && a.stored !in {a.path, b.path} && b.stored !in {a.path, b.path}
    requires StillMovable(env, d, a) && StillMovable(env, d, b) && a.status == b.status == Planned
    requires forall n :: env.fates(n) == if n == 5 || n == 7 then Fails else Done
    ensures var q := MoveFrom(env, d.(manifest := Some(es), temp := false), 2, es, 0);
            q.ran.exit == Error && q.ran.disk.files == d.files
            && q.ran.disk.manifest == Some(SetStatus(es, 0, Moved))
  {
    var d1 := d.(manifest := Some(es), temp := false);
    var es1 := SetStatus(es, 0, Moved);
    var d2 := Disk(Rename(d1.files, a.path, a.stored), Some(es1), false);
    assert MoveTurn(env, d1, 2, es, 0) == Next(d2, 5, es1);
    assert MoveFile(env, d2, 5, b.path, b.stored) == Ran(d2, 6, Error);
    var d3 := d2.(files := Rename(d2.files, a.stored, a.path));
    assert MoveFile(env, d2, 6, a.stored, a.path) == Ran(d3, 7, Finished);
    var es2 := SetStatus(es1, 0, RolledBack);
    assert PutBack(env, d3, 7, es2, 1, 1) == (Ran(d3, 7, Finished), es2);
    assert PutBack(env, d2, 6, es1, 0, 1) == (Ran(d3, 7, Finished), es2);
    assert AtomicWrite(env, d3, 7, es2) == Ran(d3, 8, Error);
    assert MoveTurn(env, d2, 5, es1, 1) == Stop(RollBack(env, d2, 6, es1, 1, 1));
    assert MoveFrom(env, d1, 2, es, 0) == RollBack(env, d2, 6, es1, 1, 1);
    assert d3.files == d.files;
  }
}
