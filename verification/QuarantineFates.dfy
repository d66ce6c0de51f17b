/** Which faults make a quarantine leave a manifest that does not match the tree. */
module QuarantineFates {
  import opened Wrappers
  import opened QuarantineModel
  import opened QuarantineSafety
  import opened QuarantineOutcome

  // ---------------------------------------------------------------- the condition, over the faults alone

  /** Turn i takes three steps from c + 3i: the move and the two halves of the manifest write. */
  predicate TurnDone(fates: nat -> Fate, c: nat, i: nat) {
    fates(c + 3 * i) == Done && fates(c + 3 * i + 1) == Done && fates(c + 3 * i + 2) == Done
  }

  /** Turn i fails with `moved` entries in the store, and the rollback starts at step r. */
  predicate TurnFails(fates: nat -> Fate, c: nat, i: nat, moved: nat, r: nat) {
    var t := c + 3 * i;
    || (fates(t) == Fails && moved == i && r == t + 1)
    || (fates(t) == Done && fates(t + 1) == Fails && moved == i + 1 && r == t + 2)
    || (fates(t) == Done && fates(t + 1) == Done && fates(t + 2) == Fails && moved == i + 1 && r == t + 3)
  }

  /** A manifest write from step t on fails. */
  predicate WriteFails(fates: nat -> Fate, t: nat) {
    fates(t) == Fails || (fates(t) == Done && fates(t + 1) == Fails)
  }

  /** Rolling back from step r on, just the first i of `moved` entries stay in the store. */
  predicate StuckAsListed(fates: nat -> Fate, r: nat, i: nat, moved: nat) {
    && (forall j {:trigger Sticks(fates, r, j)} | 0 <= j < i :: Sticks(fates, r, j))
    && (moved > i ==> !Sticks(fates, r, i))
  }

  /** Entry j cannot be put back by a rollback that starts at step r. */
  predicate Sticks(fates: nat -> Fate, r: nat, j: nat) { fates(r + j) == Fails }

  /** Some turn fails after turns that did not, the closing write fails too, and the rollback has
      not happened to fail for exactly the entries that the manifest lists as moved. */
  predicate MisledAt(fates: nat -> Fate, c: nat, i: nat, moved: nat, r: nat) {
    && (forall k | 0 <= k < i :: TurnDone(fates, c, k)) && TurnFails(fates, c, i, moved, r)
    && WriteFails(fates, r + moved) && !StuckAsListed(fates, r, i, moved)
  }

  ghost predicate Misled(fates: nat -> Fate, c: nat, n: nat) {
    exists i: nat, moved: nat, r: nat :: i < n && MisledAt(fates, c, i, moved, r)
  }

  /** There is only one first failure. */
  lemma OneFailure(fates: nat -> Fate, c: nat, i: nat, m: nat, r: nat, j: nat, n: nat, s: nat)
    requires (forall k | 0 <= k < i :: TurnDone(fates, c, k)) && TurnFails(fates, c, i, m, r)
    requires (forall k | 0 <= k < j :: TurnDone(fates, c, k)) && TurnFails(fates, c, j, n, s)
    ensures i == j && m == n && r == s
  {
    NotBefore(fates, c, i, m, r, j);
    NotBefore(fates, c, j, n, s, i);
  }

  lemma NotBefore(fates: nat -> Fate, c: nat, i: nat, m: nat, r: nat, j: nat)
    requires TurnFails(fates, c, i, m, r) && forall k | 0 <= k < j :: TurnDone(fates, c, k)
    ensures j <= i
  {
    assert TurnDone(fates, c, i) ==> false;
  }

  // ---------------------------------------------------------------- what the rollback does under given faults

  /** No two places of the entries are the same. */
  ghost predicate Unmixed(es: seq<Entry>) {
    && (forall j, k | 0 <= j < |es| && 0 <= k < |es| :: es[j].path != es[k].stored)
    && (forall j, k | 0 <= j < k < |es| :: es[j].path != es[k].path && es[j].stored != es[k].stored)
  }

  /** Entry k can still be put back. */
  predicate Stored(d: Disk, es: seq<Entry>, k: nat)
    requires k < |es|
  {
    es[k].stored in d.files
  }

  ghost predicate AllStored(d: Disk, es: seq<Entry>, j: nat, m: nat) {
    m <= |es| && forall k {:trigger Stored(d, es, k)} | j <= k < m :: Stored(d, es, k)
  }

  /** How the status of entry k comes out of a rollback that started at step r. */
  predicate TriedAt(fates: nat -> Fate, r: nat, m: nat, after: seq<Entry>, k: nat)
    requires k < |after|
  {
    after[k].status == RollbackFailed <==> k < m && Sticks(fates, r, k)
  }

  /** The first m entries have been tried, and only they may have failed. */
  ghost predicate Tried(fates: nat -> Fate, r: nat, m: nat, es: seq<Entry>) {
    forall k {:trigger TriedAt(fates, r, m, es, k)} | 0 <= k < |es| :: TriedAt(fates, r, m, es, k)
  }

  /** One rollback move, by its fault. */
  lemma OneBack(env: Env, d: Disk, r: nat, es: seq<Entry>, j: nat, m: nat)
    requires Unmixed(es) && AllStored(d, es, j, m) && j < m
    ensures var back := MoveFile(env, d, r + j, es[j].stored, es[j].path);
            && back.clock == r + j + 1 && (back.exit == Crashed <==> env.fates(r + j) == Dies)
            && (back.exit == Error <==> Sticks(env.fates, r, j))
            && AllStored(back.disk, AfterRollback(es, j, back.exit), j + 1, m)
  {
    assert Stored(d, es, j);
    var back := MoveFile(env, d, r + j, es[j].stored, es[j].path);
    forall k | j + 1 <= k < m ensures Stored(back.disk, AfterRollback(es, j, back.exit), k) {
      assert Stored(d, es, k);
    }
  }

  lemma StatusOnly(es: seq<Entry>, k: nat, status: Status)
    requires Unmixed(es) && k < |es|
    ensures Unmixed(SetStatus(es, k, status))
  {
  }

  lemma TriedOneMore(fates: nat -> Fate, r: nat, j: nat, es: seq<Entry>, exit: Exit)
    requires j < |es| && Tried(fates, r, j, es) && (exit == Finished <==> !Sticks(fates, r, j))
    ensures Tried(fates, r, j + 1, AfterRollback(es, j, exit))
  {
    var after, m := AfterRollback(es, j, exit), j + 1;
    forall k | 0 <= k < |after| ensures TriedAt(fates, r, m, after, k) { assert TriedAt(fates, r, j, es, k); }
  }

  lemma {:induction false} PutBackFates(env: Env, d: Disk, r: nat, es: seq<Entry>, j: nat, m: nat)
    requires Unmixed(es) && j <= m && AllStored(d, es, j, m) && Tried(env.fates, r, j, es)
    ensures var (back, after) := PutBack(env, d, r + j, es, j, m);
            back.exit != Crashed ==> back.clock == r + m && Tried(env.fates, r, m, after)
    decreases m - j
  {
    if j < m {
      OneBack(env, d, r, es, j, m);
      var back := MoveFile(env, d, r + j, es[j].stored, es[j].path);
      if back.exit != Crashed {
        TriedOneMore(env.fates, r, j, es, back.exit);
        StatusOnly(es, j, if back.exit == Finished then RolledBack else RollbackFailed);
        PutBackFates(env, back.disk, r, AfterRollback(es, j, back.exit), j + 1, m);
      }
    }
  }

  /** What a rollback that is not killed leaves, by the faults it meets. */
  ghost predicate RolledBy(fates: nat -> Fate, q: Quarantined, i: nat, moved: nat, r: nat) {
    q.failedAt == Some(i) && (q.closed <==> !WriteFails(fates, r + moved)) && Tried(fates, r, moved, q.memory)
  }

  lemma RollBackFates(env: Env, d: Disk, r: nat, es: seq<Entry>, m: nat, i: nat)
    requires Unmixed(es) && AllStored(d, es, 0, m) && Tried(env.fates, r, 0, es)
    ensures var q := RollBack(env, d, r, es, m, i);
            q.ran.exit != Crashed ==> |q.memory| == |es| && RolledBy(env.fates, q, i, m, r)
  {
    PutBackFates(env, d, r, es, 0, m);
  }

  // ---------------------------------------------------------------- turns

  /** Entry k has not had its turn, and nothing is in its way. */
  predicate Waiting(env: Env, d: Disk, es: seq<Entry>, k: nat)
    requires k < |es|
  {
    StillMovable(env, d, es[k]) && es[k].status != RollbackFailed
  }

  /** Before turn i: the entries before it are in the store, the others wait. */
  ghost predicate Before(env: Env, d: Disk, es: seq<Entry>, i: nat) {
    && Unmixed(es) && AllStored(d, es, 0, i) && (forall k | 0 <= k < |es| :: es[k].status != RollbackFailed)
    && forall k {:trigger Waiting(env, d, es, k)} | i <= k < |es| :: Waiting(env, d, es, k)
  }

  lemma NoneTried(env: Env, d: Disk, es: seq<Entry>, i: nat, r: nat)
    requires Before(env, d, es, i)
    ensures Tried(env.fates, r, 0, es)
  {
  }

  /** One move, by its fault. */
  lemma OneOut(env: Env, d: Disk, t: nat, es: seq<Entry>, i: nat)
    requires Before(env, d, es, i) && i < |es| && env.fates(t) == Done
    ensures var moved := MoveFile(env, d, t, es[i].path, es[i].stored);
            moved.exit == Finished && moved.clock == t + 1 && Before(env, moved.disk, SetStatus(es, i, Moved), i + 1)
  {
    assert Waiting(env, d, es, i);
    var disk, after := MoveFile(env, d, t, es[i].path, es[i].stored).disk, SetStatus(es, i, Moved);
    StatusOnly(es, i, Moved);
    forall k | 0 <= k < i + 1 ensures Stored(disk, after, k) { assert k < i ==> Stored(d, es, k); }
    forall k | i + 1 <= k < |es| ensures Waiting(env, disk, after, k) { assert Waiting(env, d, es, k); }
  }

  /** Writing the manifest moves no file. */
  lemma WrittenStays(env: Env, d: Disk, t: nat, es: seq<Entry>, i: nat)
    requires Before(env, d, es, i)
    ensures Before(env, AtomicWrite(env, d, t, es).disk, es, i)
  {
    var w := AtomicWrite(env, d, t, es);
    forall k | 0 <= k < i ensures Stored(w.disk, es, k) { assert Stored(d, es, k); }
    forall k | i <= k < |es| ensures Waiting(env, w.disk, es, k) { assert Waiting(env, d, es, k); }
  }

  ghost predicate FailsAs(fates: nat -> Fate, c: nat, i: nat, n: nat, q: Quarantined) {
    |q.memory| == n && exists moved: nat, r: nat :: TurnFails(fates, c, i, moved, r) && RolledBy(fates, q, i, moved, r)
  }

  /** A rollback after the turn failed as its first fault says. */
  lemma FailedTurn(env: Env, d: Disk, c: nat, es: seq<Entry>, i: nat, m: nat, r: nat)
    requires Before(env, d, es, m) && m <= |es| && TurnFails(env.fates, c, i, m, r)
    ensures var q := RollBack(env, d, r, es, m, i); q.ran.exit == Crashed || FailsAs(env.fates, c, i, |es|, q)
  {
    NoneTried(env, d, es, m, r);
    RollBackFates(env, d, r, es, m, i);
  }

  /** What the i-th turn comes to. */
  ghost predicate TurnAs(env: Env, c: nat, i: nat, n: nat, turn: Turn) {
    match turn
    case Next(disk, clock, es) =>
      TurnDone(env.fates, c, i) && clock == c + 3 * (i + 1) && |es| == n && Before(env, disk, es, i + 1)
    case Stop(q) => q.ran.exit == Crashed || FailsAs(env.fates, c, i, n, q)
  }

  lemma NotMovedTurn(env: Env, d: Disk, c: nat, es: seq<Entry>, i: nat)
    requires Before(env, d, es, i) && i < |es| && env.fates(c + 3 * i) != Done
    ensures TurnAs(env, c, i, |es|, MoveTurn(env, d, c + 3 * i, es, i))
  {
    assert Waiting(env, d, es, i);
    if env.fates(c + 3 * i) == Fails { FailedTurn(env, d, c, es, i, i, c + 3 * i + 1); }
  }

  /** The entry is in the store and its move is being written down. */
  lemma RecordFates(env: Env, d: Disk, c: nat, es: seq<Entry>, i: nat, w: Ran)
    requires Before(env, d, es, i + 1) && i < |es| && env.fates(c + 3 * i) == Done
    requires w == AtomicWrite(env, d, c + 3 * i + 1, es)
    ensures Before(env, w.disk, es, i + 1)
    ensures w.exit == Finished ==> TurnDone(env.fates, c, i) && w.clock == c + 3 * (i + 1)
    ensures w.exit == Error ==>
              var q := RollBack(env, w.disk, w.clock, es, i + 1, i);
              q.ran.exit == Crashed || FailsAs(env.fates, c, i, |es|, q)
  {
    WrittenStays(env, d, c + 3 * i + 1, es, i + 1);
    if w.exit == Error { FailedTurn(env, w.disk, c, es, i, i + 1, w.clock); }
  }

  lemma MovedTurn(env: Env, d: Disk, c: nat, es: seq<Entry>, i: nat)
    requires Before(env, d, es, i) && i < |es| && env.fates(c + 3 * i) == Done
    ensures TurnAs(env, c, i, |es|, MoveTurn(env, d, c + 3 * i, es, i))
  {
    var t := c + 3 * i;
    assert Waiting(env, d, es, i);
    OneOut(env, d, t, es, i);
    var moved, after := MoveFile(env, d, t, es[i].path, es[i].stored), SetStatus(es, i, Moved);
    RecordFates(env, moved.disk, c, after, i, AtomicWrite(env, moved.disk, t + 1, after));
  }

  /** A turn either has no fault and goes on three steps later, or fails as its first fault says. */
  lemma TurnFates(env: Env, d: Disk, c: nat, es: seq<Entry>, i: nat)
    requires Before(env, d, es, i) && i < |es|
    ensures TurnAs(env, c, i, |es|, MoveTurn(env, d, c + 3 * i, es, i))
  {
    if env.fates(c + 3 * i) == Done { MovedTurn(env, d, c, es, i); } else { NotMovedTurn(env, d, c, es, i); }
  }

  /** From turn i on: the run ends without a failure, or at the first failing turn and as it says. */
  ghost predicate EndsAs(fates: nat -> Fate, c: nat, n: nat, q: Quarantined) {
    && |q.memory| == n
    && (q.failedAt.None? ==> forall k | 0 <= k < n :: TurnDone(fates, c, k))
    && (q.failedAt.Some? ==>
          && q.failedAt.value < n && (forall k | 0 <= k < q.failedAt.value :: TurnDone(fates, c, k))
          && FailsAs(fates, c, q.failedAt.value, n, q))
  }

  lemma {:induction false} MoveFromFates(env: Env, d: Disk, c: nat, es: seq<Entry>, i: nat)
    requires Before(env, d, es, i) && i <= |es|
    requires forall k | 0 <= k < i :: TurnDone(env.fates, c, k)
    ensures var q := MoveFrom(env, d, c + 3 * i, es, i); q.ran.exit != Crashed ==> EndsAs(env.fates, c, |es|, q)
    decreases |es| - i
  {
    if i == |es| {
      AllDone(env, d, c, es);
    } else {
      TurnFates(env, d, c, es, i);
      var turn := MoveTurn(env, d, c + 3 * i, es, i);
      if turn.Next? {
        MoveFromFates(env, turn.disk, c, turn.es, i + 1);
      } else {
        StopsAs(env.fates, c, i, |es|, turn.result);
      }
    }
  }

  lemma AllDone(env: Env, d: Disk, c: nat, es: seq<Entry>)
    requires forall k | 0 <= k < |es| :: TurnDone(env.fates, c, k)
    ensures EndsAs(env.fates, c, |es|, MoveFrom(env, d, c + 3 * |es|, es, |es|))
  {
  }

  lemma StopsAs(fates: nat -> Fate, c: nat, i: nat, n: nat, q: Quarantined)
    requires i < n && (forall k | 0 <= k < i :: TurnDone(fates, c, k))
    requires q.ran.exit == Crashed || FailsAs(fates, c, i, n, q)
    ensures q.ran.exit == Crashed || EndsAs(fates, c, n, q)
  {
  }

  // ---------------------------------------------------------------- main result

  /** The manifest on disk, if there is one, says of every file where it is. */
  ghost predicate Matches(o: map<Path, Bytes>, d: Disk, base: seq<Entry>) {
    d.manifest.Some? ==> Truthful(o, d, base, d.manifest.value)
  }

  lemma EndMatchesIff(fates: nat -> Fate, o: map<Path, Bytes>, q: Quarantined, base: seq<Entry>, c: nat)
    requires Outcome(o, q, base) && EndsAs(fates, c, |base|, q)
    ensures Matches(o, q.ran.disk, base) <==> !Misled(fates, c, |base|)
  {
    TruthfulIff(o, q, base);
    if q.failedAt.None? {
      forall i: nat, moved: nat, r: nat | i < |base| ensures !MisledAt(fates, c, i, moved, r) {
        assert TurnDone(fates, c, i);
      }
    } else {
      var i := q.failedAt.value;
      var moved: nat, r: nat :| TurnFails(fates, c, i, moved, r) && RolledBy(fates, q, i, moved, r);
      StuckIff(fates, q, c, i, moved, r);
      forall j: nat, n: nat, s: nat | j < |base| && MisledAt(fates, c, j, n, s) ensures j == i && n == moved && s == r {
        OneFailure(fates, c, i, moved, r, j, n, s);
      }
      assert MisledAt(fates, c, i, moved, r) <==> WriteFails(fates, r + moved) && !StuckAsListed(fates, r, i, moved);
    }
  }

  /** The rollback's result says the same as the faults it met. */
  lemma StuckIff(fates: nat -> Fate, q: Quarantined, c: nat, i: nat, moved: nat, r: nat)
    requires i < |q.memory| && TurnFails(fates, c, i, moved, r) && Tried(fates, r, moved, q.memory)
    ensures StuckAsListed(fates, r, i, moved)
            <==> forall k | 0 <= k < |q.memory| :: k < i <==> q.memory[k].status == RollbackFailed
  {
    if StuckAsListed(fates, r, i, moved) {
      forall k | 0 <= k < |q.memory| ensures k < i <==> q.memory[k].status == RollbackFailed {
        assert TriedAt(fates, r, moved, q.memory, k);
        assert k < i ==> Sticks(fates, r, k);
      }
    } else if forall k | 0 <= k < |q.memory| :: k < i <==> q.memory[k].status == RollbackFailed {
      forall j | 0 <= j < i ensures Sticks(fates, r, j) { assert TriedAt(fates, r, moved, q.memory, j); }
      assert TriedAt(fates, r, moved, q.memory, i);
    }
  }

  /** The whole quarantine.  Unless it is killed, the manifest it leaves does not match the tree if
      and only if the first manifest write succeeds, the verdict is confirmed, and the faults are
      such that a turn fails, the closing write fails too and the rollback does not happen to
      leave in the store just the entries listed there. */
  lemma ManifestMatchesIff(env: Env, d: Disk, clock: nat, batch: string, items: seq<(Path, Digest)>,
                           eligible: map<Path, Digest>, rechecked: map<Path, Digest>)
    requires Selected(env, d, batch, items, eligible)
    ensures var q := Quarantine(env, d, clock, batch, items, eligible, rechecked);
            q.ran.exit != Crashed ==>
              (Matches(d.files, q.ran.disk, Entries(batch, items)) <==>
                 WriteFails(env.fates, clock) || !StillEligible(items, rechecked)
                 || !Misled(env.fates, clock + 2, |items|))
  {
    var es := Entries(batch, items);
    SelectionApart(env, d, batch, items, eligible);
    var w := AtomicWrite(env, d, clock, es);
    if w.exit == Finished {
      TreeSame(d.files, d, w.disk, es);
      if StillEligible(items, rechecked) {
        StartedOutcome(env, d, clock, batch, items, eligible, rechecked);
        AllWait(env, d, batch, es);
        WrittenStays(env, d, clock, es, 0);
        MoveFromFates(env, w.disk, clock + 2, es, 0);
        var q := MoveFrom(env, w.disk, w.clock, es, 0);
        if q.ran.exit != Crashed { EndMatchesIff(env.fates, d.files, q, es, clock + 2); }
      }
    }
  }

  lemma AllWait(env: Env, d: Disk, batch: string, es: seq<Entry>)
    requires Apart(d.files, es) && WellChosen(env, d.files, batch, es)
    requires forall k | 0 <= k < |es| :: AtHome(d.files, d, es[k])
    requires forall k | 0 <= k < |es| :: es[k].status == Planned
    ensures Before(env, d, es, 0)
  {
  }
}
