/** No schedule of failures and crashes loses a selected file: its bytes are always at exactly
    one of its two places, and a restore that runs to the end brings the whole tree back. */
module QuarantineSafety {
  import opened QuarantineModel

  // ---------------------------------------------------------------- the safety condition

  predicate AtHome(o: map<Path, Bytes>, d: Disk, e: Entry) {
    && e.path in o && e.path in d.files && d.files[e.path] == o[e.path]
    && e.stored !in d.files
  }

  predicate InStore(o: map<Path, Bytes>, d: Disk, e: Entry) {
    && e.path in o && e.stored in d.files && d.files[e.stored] == o[e.path]
    && e.path !in d.files
  }

  /** The entries name distinct files of the original tree and distinct, unused store paths. */
  ghost predicate Apart(o: map<Path, Bytes>, es: seq<Entry>) {
    && (forall k | 0 <= k < |es| :: es[k].path in o && es[k].stored !in o)
    && (forall j, k | 0 <= j < |es| && 0 <= k < |es| && j != k ::
          es[j].path != es[k].path && es[j].stored != es[k].stored)
  }

  ghost predicate Named(es: seq<Entry>, q: Path) {
    exists k | 0 <= k < |es| :: q == es[k].path || q == es[k].stored
  }

  /** Entry `k`'s file is whole, at home or in the store. */
  predicate Placed(o: map<Path, Bytes>, d: Disk, es: seq<Entry>, k: nat)
    requires k < |es|
  {
    AtHome(o, d, es[k]) || InStore(o, d, es[k])
  }

  /** A file that is not selected is as it was. */
  ghost predicate Untouched(o: map<Path, Bytes>, d: Disk, es: seq<Entry>, q: Path) {
    !Named(es, q) ==> (q in d.files <==> q in o) && (q in o ==> d.files[q] == o[q])
  }

  /** Every selected file is whole, at home or in the store, and every other file is untouched. */
  ghost predicate TreeOk(o: map<Path, Bytes>, d: Disk, es: seq<Entry>) {
    && (forall k {:trigger Placed(o, d, es, k)} | 0 <= k < |es| :: Placed(o, d, es, k))
    && (forall q {:trigger Untouched(o, d, es, q)} :: Untouched(o, d, es, q))
  }

  predicate SameFile(a: Entry, b: Entry) { a.path == b.path && a.stored == b.stored && a.digest == b.digest }

  ghost predicate SameFiles(es: seq<Entry>, ms: seq<Entry>) {
    |es| == |ms| && forall k | 0 <= k < |es| :: SameFile(es[k], ms[k])
  }

  /** An entry the manifest gives up on is at home. */
  ghost predicate ManifestOk(o: map<Path, Bytes>, d: Disk, es: seq<Entry>, ms: seq<Entry>) {
    SameFiles(es, ms) && forall k | 0 <= k < |es| :: Recoverable(ms[k].status) || AtHome(o, d, es[k])
  }

  /** Nothing is lost: what every step of quarantine and restore keeps. */
  ghost predicate Safe(o: map<Path, Bytes>, d: Disk, es: seq<Entry>) {
    && Apart(o, es) && TreeOk(o, d, es)
    && (d.manifest.Some? ==> ManifestOk(o, d, es, d.manifest.value))
    && (d.manifest.None? ==> forall k | 0 <= k < |es| :: AtHome(o, d, es[k]))
  }

  /** The recorded digests are those of the original bytes, and restore may touch the paths. */
  ghost predicate WellChosen(env: Env, o: map<Path, Bytes>, batch: string, es: seq<Entry>) {
    forall k | 0 <= k < |es| ::
      && es[k].path in o && env.hash(o[es[k].path]) == es[k].digest
      && es[k].stored == StoredPath(batch, es[k].path)
      && env.cacheable(es[k].path) && es[k].path !in env.tracked
  }

  // ---------------------------------------------------------------- store paths

  lemma StoredPathsApart(batch: string, p: Path, q: Path)
    ensures StoredPath(batch, p) == StoredPath(batch, q) ==> p == q
    ensures ToolArtifact(StoredPath(batch, p))
  {
    var prefix := StorePrefix + batch + "/files/";
    assert StoredPath(batch, p) == prefix + p && StoredPath(batch, q) == prefix + q;
    assert (prefix + p)[|prefix|..] == p && (prefix + q)[|prefix|..] == q;
  }

  // ---------------------------------------------------------------- one rename

  /** Moving entry `k` one way or the other leaves every other entry where it was. */
  lemma MovedOnly(o: map<Path, Bytes>, d: Disk, d': Disk, es: seq<Entry>, k: nat, out: bool)
    requires Apart(o, es) && TreeOk(o, d, es) && k < |es|
    requires out ==> AtHome(o, d, es[k]) && d'.files == Rename(d.files, es[k].path, es[k].stored)
    requires !out ==> InStore(o, d, es[k]) && d'.files == Rename(d.files, es[k].stored, es[k].path)
    ensures TreeOk(o, d', es)
    ensures if out then InStore(o, d', es[k]) else AtHome(o, d', es[k])
    ensures forall j | 0 <= j < |es| && j != k ::
              (AtHome(o, d, es[j]) <==> AtHome(o, d', es[j])) && (InStore(o, d, es[j]) <==> InStore(o, d', es[j]))
  {
    forall j | 0 <= j < |es| && j != k
      ensures AtHome(o, d, es[j]) <==> AtHome(o, d', es[j])
      ensures InStore(o, d, es[j]) <==> InStore(o, d', es[j])
    {
      MovedBeside(o, d, d', es, k, j);
    }
    forall j | 0 <= j < |es| ensures Placed(o, d', es, j) { assert Placed(o, d, es, j); }
    forall q ensures Untouched(o, d', es, q) {
      assert Untouched(o, d, es, q);
      assert Named(es, es[k].path) && Named(es, es[k].stored);
    }
  }

  /** A rename between entry k's places is none of entry j's business. */
  lemma MovedBeside(o: map<Path, Bytes>, d: Disk, d': Disk, es: seq<Entry>, k: nat, j: nat)
    requires Apart(o, es) && k < |es| && j < |es| && j != k
    requires || (es[k].path in d.files && d'.files == Rename(d.files, es[k].path, es[k].stored))
             || (es[k].stored in d.files && d'.files == Rename(d.files, es[k].stored, es[k].path))
    ensures AtHome(o, d, es[j]) <==> AtHome(o, d', es[j])
    ensures InStore(o, d, es[j]) <==> InStore(o, d', es[j])
  {
    assert es[j].path != es[k].path && es[j].stored != es[k].stored;
    assert es[j].path != es[k].stored && es[k].path != es[j].stored;
  }

  // ---------------------------------------------------------------- quarantine keeps the tree safe

  /** The manifest on disk still lists every entry as recoverable. */
  ghost predicate Unresolved(d: Disk, es: seq<Entry>) {
    && d.manifest.Some? && SameFiles(es, d.manifest.value)
    && forall k | 0 <= k < |es| :: Recoverable(d.manifest.value[k].status)
  }

  /** Entry `k` when a rollback of the first `m` has tried the first `j`. */
  predicate RollsAt(o: map<Path, Bytes>, d: Disk, base: seq<Entry>, es: seq<Entry>, j: nat, m: nat, k: nat)
    requires k < |base| == |es|
  {
    if k < j then
      || (es[k].status == RolledBack && AtHome(o, d, base[k]))
      || (es[k].status == RollbackFailed && InStore(o, d, base[k]))
    else if k < m then es[k].status == Moved && InStore(o, d, base[k])
    else es[k].status == Planned && AtHome(o, d, base[k])
  }

  /** In the middle of a rollback: entries before `j` have been tried, `j..m` are still stored. */
  ghost predicate Rolling(o: map<Path, Bytes>, d: Disk, base: seq<Entry>, es: seq<Entry>, j: nat, m: nat) {
    && j <= m <= |es| && Apart(o, base) && TreeOk(o, d, base) && SameFiles(base, es)
    && forall k {:trigger RollsAt(o, d, base, es, j, m, k)} | 0 <= k < |es| :: RollsAt(o, d, base, es, j, m, k)
  }

  /** In the middle of the moves: entries before `i` are stored, the rest are at home. */
  ghost predicate Moving(o: map<Path, Bytes>, d: Disk, base: seq<Entry>, es: seq<Entry>, i: nat) {
    Rolling(o, d, base, es, 0, i)
  }

  lemma SafeWith(o: map<Path, Bytes>, d: Disk, base: seq<Entry>)
    requires Apart(o, base) && TreeOk(o, d, base) && Unresolved(d, base)
    ensures Safe(o, d, base)
  {
  }

  /** One rollback move, whatever becomes of it. */
  lemma RolledOne(env: Env, o: map<Path, Bytes>, d: Disk, clock: nat, base: seq<Entry>, es: seq<Entry>, j: nat, m: nat)
    requires Rolling(o, d, base, es, j, m) && j < m
    ensures var back := MoveFile(env, d, clock, es[j].stored, es[j].path);
            && back.disk.manifest == d.manifest
            && (back.exit == Crashed ==> back.disk == d)
            && (back.exit != Crashed ==> Rolling(o, back.disk, base, AfterRollback(es, j, back.exit), j + 1, m))
  {
    assert SameFile(base[j], es[j]) && RollsAt(o, d, base, es, j, m, j);
    var back := MoveFile(env, d, clock, es[j].stored, es[j].path);
    if back.exit == Finished { MovedOnly(o, d, back.disk, base, j, false); }
    if back.exit != Crashed { RolledOn(o, d, back.disk, base, es, j, m, back.exit); }
  }

  lemma RolledOn(o: map<Path, Bytes>, d: Disk, d': Disk, base: seq<Entry>, es: seq<Entry>, j: nat, m: nat, exit: Exit)
    requires Rolling(o, d, base, es, j, m) && j < m && TreeOk(o, d', base)
    requires if exit == Finished then AtHome(o, d', base[j]) else InStore(o, d', base[j])
    requires forall k | 0 <= k < |base| && k != j ::
               && (AtHome(o, d, base[k]) ==> AtHome(o, d', base[k]))
               && (InStore(o, d, base[k]) ==> InStore(o, d', base[k]))
    ensures Rolling(o, d', base, AfterRollback(es, j, exit), j + 1, m)
  {
    var after, next := AfterRollback(es, j, exit), j + 1;
    forall k | 0 <= k < |after| ensures RollsAt(o, d', base, after, next, m, k) {
      assert RollsAt(o, d, base, es, j, m, k);
    }
  }

  lemma TreeSame(o: map<Path, Bytes>, d: Disk, d': Disk, es: seq<Entry>)
    requires d.files == d'.files
    ensures TreeOk(o, d, es) <==> TreeOk(o, d', es)
    ensures forall k | 0 <= k < |es| ::
              (AtHome(o, d, es[k]) <==> AtHome(o, d', es[k])) && (InStore(o, d, es[k]) <==> InStore(o, d', es[k]))
  {
    forall k | 0 <= k < |es| ensures Placed(o, d, es, k) <==> Placed(o, d', es, k) {}
    forall q ensures Untouched(o, d, es, q) <==> Untouched(o, d', es, q) {}
  }

  lemma RollingSame(o: map<Path, Bytes>, d: Disk, d': Disk, base: seq<Entry>, es: seq<Entry>, j: nat, m: nat)
    requires Rolling(o, d, base, es, j, m) && d.files == d'.files
    ensures Rolling(o, d', base, es, j, m)
  {
    TreeSame(o, d, d', base);
    forall k | 0 <= k < |es| ensures RollsAt(o, d', base, es, j, m, k) { assert RollsAt(o, d, base, es, j, m, k); }
  }

  lemma ManifestSame(o: map<Path, Bytes>, d: Disk, d': Disk, base: seq<Entry>, es: seq<Entry>)
    requires d.files == d'.files && ManifestOk(o, d, base, es)
    ensures ManifestOk(o, d', base, es)
  {
  }

  /** Writing the final statuses of a rollback, or failing to, is safe either way. */
  lemma RollBackClosed(env: Env, o: map<Path, Bytes>, d: Disk, clock: nat, base: seq<Entry>, es: seq<Entry>, m: nat)
    requires Rolling(o, d, base, es, m, m) && Unresolved(d, base)
    ensures Safe(o, AtomicWrite(env, d, clock, es).disk, base)
  {
    var w := AtomicWrite(env, d, clock, es);
    RolledManifests(o, d, base, es, m);
    TreeSame(o, d, w.disk, base);
    ManifestSame(o, d, w.disk, base, es);
    ManifestSame(o, d, w.disk, base, d.manifest.value);
  }

  lemma RolledManifests(o: map<Path, Bytes>, d: Disk, base: seq<Entry>, es: seq<Entry>, m: nat)
    requires Rolling(o, d, base, es, m, m) && Unresolved(d, base)
    ensures ManifestOk(o, d, base, es) && ManifestOk(o, d, base, d.manifest.value)
  {
    forall k | 0 <= k < |base| ensures Recoverable(es[k].status) || AtHome(o, d, base[k]) {
      assert RollsAt(o, d, base, es, m, m, k);
    }
  }

  lemma {:induction false} PutBackRolls(env: Env, o: map<Path, Bytes>, d: Disk, clock: nat, base: seq<Entry>,
                                        es: seq<Entry>, j: nat, m: nat)
    requires Rolling(o, d, base, es, j, m)
    ensures var (back, es') := PutBack(env, d, clock, es, j, m);
            && back.disk.manifest == d.manifest && TreeOk(o, back.disk, base)
            && (back.exit == Finished ==> Rolling(o, back.disk, base, es', m, m))
    decreases m - j
  {
    if j < m {
      RolledOne(env, o, d, clock, base, es, j, m);
      var back := MoveFile(env, d, clock, es[j].stored, es[j].path);
      if back.exit != Crashed {
        PutBackRolls(env, o, back.disk, back.clock, base, AfterRollback(es, j, back.exit), j + 1, m);
      }
    }
  }

  lemma RollBackSafe(env: Env, o: map<Path, Bytes>, d: Disk, clock: nat, base: seq<Entry>,
                     es: seq<Entry>, m: nat, failedAt: nat)
    requires Rolling(o, d, base, es, 0, m) && Unresolved(d, base)
    ensures Safe(o, RollBack(env, d, clock, es, m, failedAt).ran.disk, base)
  {
    var (back, es') := PutBack(env, d, clock, es, 0, m);
    PutBackRolls(env, o, d, clock, base, es, 0, m);
    if back.exit == Crashed {
      SafeWith(o, back.disk, base);
    } else {
      RollBackClosed(env, o, back.disk, back.clock, base, es', m);
    }
  }

  /** One forward move, whatever becomes of it. */
  lemma MovedOne(env: Env, o: map<Path, Bytes>, d: Disk, clock: nat, base: seq<Entry>, es: seq<Entry>, i: nat)
    requires Moving(o, d, base, es, i) && i < |es|
    ensures var moved := MoveFile(env, d, clock, es[i].path, es[i].stored);
            && moved.disk.manifest == d.manifest
            && (moved.exit != Finished ==> moved.disk == d)
            && (moved.exit == Finished ==> Moving(o, moved.disk, base, SetStatus(es, i, Moved), i + 1))
  {
    assert SameFile(base[i], es[i]) && RollsAt(o, d, base, es, 0, i, i);
    var moved := MoveFile(env, d, clock, es[i].path, es[i].stored);
    if moved.exit == Finished {
      MovedOnly(o, d, moved.disk, base, i, true);
      MovedOn(o, d, moved.disk, base, es, i);
    }
  }

  lemma MovedOn(o: map<Path, Bytes>, d: Disk, d': Disk, base: seq<Entry>, es: seq<Entry>, i: nat)
    requires Moving(o, d, base, es, i) && i < |es| && TreeOk(o, d', base) && InStore(o, d', base[i])
    requires forall k | 0 <= k < |base| && k != i ::
               && (AtHome(o, d, base[k]) ==> AtHome(o, d', base[k]))
               && (InStore(o, d, base[k]) ==> InStore(o, d', base[k]))
    ensures Moving(o, d', base, SetStatus(es, i, Moved), i + 1)
  {
    var after, next := SetStatus(es, i, Moved), i + 1;
    forall k | 0 <= k < |after| ensures RollsAt(o, d', base, after, 0, next, k) {
      assert RollsAt(o, d, base, es, 0, i, k);
    }
  }

  /** Recording the moves so far keeps every entry recoverable. */
  lemma Recorded(env: Env, o: map<Path, Bytes>, d: Disk, clock: nat, base: seq<Entry>, es: seq<Entry>, i: nat)
    requires Moving(o, d, base, es, i) && Unresolved(d, base)
    ensures var w := AtomicWrite(env, d, clock, es);
            Moving(o, w.disk, base, es, i) && Unresolved(w.disk, base) && w.disk.files == d.files
  {
    var w := AtomicWrite(env, d, clock, es);
    RollingSame(o, d, w.disk, base, es, 0, i);
    forall k | 0 <= k < |es| ensures Recoverable(es[k].status) { assert RollsAt(o, d, base, es, 0, i, k); }
  }

  /** What one entry's turn leaves behind. */
  lemma TurnSafe(env: Env, o: map<Path, Bytes>, d: Disk, clock: nat, base: seq<Entry>, es: seq<Entry>, i: nat)
    requires Moving(o, d, base, es, i) && Unresolved(d, base) && i < |es|
    ensures var turn := MoveTurn(env, d, clock, es, i);
            && (turn.Stop? ==> Safe(o, turn.result.ran.disk, base))
            && (turn.Next? ==> Moving(o, turn.disk, base, turn.es, i + 1) && Unresolved(turn.disk, base))
  {
    if !StillMovable(env, d, es[i]) {
      RollBackSafe(env, o, d, clock, base, es, i, i);
    } else {
      MovedOne(env, o, d, clock, base, es, i);
      var moved := MoveFile(env, d, clock, es[i].path, es[i].stored);
      match moved.exit
      case Crashed => SafeWith(o, d, base);
      case Error => RollBackSafe(env, o, moved.disk, moved.clock, base, es, i, i);
      case Finished =>
        var es' := SetStatus(es, i, Moved);
        Recorded(env, o, moved.disk, moved.clock, base, es', i + 1);
        var w := AtomicWrite(env, moved.disk, moved.clock, es');
        match w.exit
        case Crashed => SafeWith(o, w.disk, base);
        case Error => RollBackSafe(env, o, w.disk, w.clock, base, es', i + 1, i);
        case Finished =>
    }
  }

  lemma {:induction false} MoveFromSafe(env: Env, o: map<Path, Bytes>, d: Disk, clock: nat, base: seq<Entry>,
                                        es: seq<Entry>, i: nat)
    requires Moving(o, d, base, es, i) && Unresolved(d, base)
    ensures Safe(o, MoveFrom(env, d, clock, es, i).ran.disk, base)
    decreases |es| - i
  {
    if i == |es| {
      Recorded(env, o, d, clock, base, es, i);
      SafeWith(o, AtomicWrite(env, d, clock, es).disk, base);
    } else {
      TurnSafe(env, o, d, clock, base, es, i);
      var turn := MoveTurn(env, d, clock, es, i);
      if turn.Next? { MoveFromSafe(env, o, turn.disk, turn.clock, base, turn.es, i + 1); }
    }
  }

  /** A validated selection of files that are neither tracked nor the tool's own. */
  ghost predicate Selected(env: Env, d: Disk, batch: string, items: seq<(Path, Digest)>, eligible: map<Path, Digest>) {
    && SelectionOk(env, d, batch, items, eligible)
    && forall k | 0 <= k < |items| :: !ToolArtifact(items[k].0) && items[k].0 !in env.tracked
  }

  lemma SelectionApart(env: Env, d: Disk, batch: string, items: seq<(Path, Digest)>, eligible: map<Path, Digest>)
    requires Selected(env, d, batch, items, eligible)
    ensures var es := Entries(batch, items);
            && Apart(d.files, es) && WellChosen(env, d.files, batch, es) && TreeOk(d.files, d, es)
            && forall k | 0 <= k < |es| :: AtHome(d.files, d, es[k])
  {
    var es := Entries(batch, items);
    forall k | 0 <= k < |es| ensures AtHome(d.files, d, es[k]) && env.hash(d.files[es[k].path]) == es[k].digest {
      assert ItemOk(env, d, eligible, items[k]);
    }
    forall j, k | 0 <= j < |es| && 0 <= k < |es| && j != k
      ensures es[j].path != es[k].path && es[j].stored != es[k].stored
    {
      if j < k { assert items[j].0 != items[k].0; } else { assert items[k].0 != items[j].0; }
      StoredPathsApart(batch, items[j].0, items[k].0);
    }
  }

  /** Whatever fails and wherever it dies, a quarantine loses nothing. */
  lemma QuarantineSafe(env: Env, d: Disk, clock: nat, batch: string, items: seq<(Path, Digest)>,
                       eligible: map<Path, Digest>, rechecked: map<Path, Digest>)
    requires Selected(env, d, batch, items, eligible)
    ensures Safe(d.files, Quarantine(env, d, clock, batch, items, eligible, rechecked).ran.disk, Entries(batch, items))
  {
    var es := Entries(batch, items);
    SelectionApart(env, d, batch, items, eligible);
    var w := AtomicWrite(env, d, clock, es);
    TreeSame(d.files, d, w.disk, es);
    if w.exit == Finished && StillEligible(items, rechecked) {
      MoveFromSafe(env, d.files, w.disk, w.clock, es, es, 0);
    }
  }
}
