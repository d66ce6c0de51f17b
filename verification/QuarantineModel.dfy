/** The disk, the manifest and the two operations of the repository quarantine, as functions of
    a fault schedule.  Renames and replaces are atomic; each primitive step may succeed, fail
    without effect, or be the point at which the process dies. */
module QuarantineModel {
  import opened Wrappers

  type Path = string
  type Bytes = seq<bv8>
  type Digest = string

  datatype Status = Planned | Moved | RolledBack | RollbackFailed | Restored | NotMoved

  datatype Entry = Entry(path: Path, stored: Path, digest: Digest, status: Status)

  /** `temp` says whether a half-written manifest lies beside the real one. */
  datatype Disk = Disk(files: map<Path, Bytes>, manifest: Option<seq<Entry>>, temp: bool)

  datatype Fate = Done | Fails | Dies

  datatype Exit = Finished | Error | Crashed

  /** What stays fixed while the tool runs: nobody else writes, and `fates(n)` is what happens to
      the `n`-th primitive step. */
  datatype Env = Env(hash: Bytes -> Digest, cacheable: Path -> bool, tracked: set<Path>, fates: nat -> Fate)

  datatype Ran = Ran(disk: Disk, clock: nat, exit: Exit)

  const StorePrefix := "runs/quarantine/"

  function StoredPath(batch: string, path: Path): Path { StorePrefix + batch + "/files/" + path }

  predicate ToolArtifact(path: Path) { StorePrefix <= path }

  predicate Recoverable(s: Status) { s == Moved || s == Planned || s == RollbackFailed }

  // ---------------------------------------------------------------- primitive steps

  function Rename(files: map<Path, Bytes>, source: Path, target: Path): map<Path, Bytes>
    requires source in files
  {
    var bytes := files[source];
    (files - {source})[target := bytes]
  }

  /** One `shutil.move` inside the tree. */
  function MoveFile(env: Env, d: Disk, clock: nat, source: Path, target: Path): Ran {
    match env.fates(clock)
    case Dies => Ran(d, clock + 1, Crashed)
    case Fails => Ran(d, clock + 1, Error)
    case Done =>
      if source in d.files then Ran(d.(files := Rename(d.files, source, target)), clock + 1, Finished)
      else Ran(d, clock + 1, Error)
  }

  /** Write beside the manifest, then replace it: two steps, either of which may fail or be the last. */
  function AtomicWrite(env: Env, d: Disk, clock: nat, entries: seq<Entry>): Ran {
    match env.fates(clock)
    case Dies => Ran(d.(temp := true), clock + 1, Crashed)
    case Fails => Ran(d.(temp := false), clock + 1, Error)
    case Done =>
      match env.fates(clock + 1)
      case Dies => Ran(d.(temp := true), clock + 2, Crashed)
      case Fails => Ran(d.(temp := false), clock + 2, Error)
      case Done => Ran(d.(manifest := Some(entries), temp := false), clock + 2, Finished)
  }

  // ---------------------------------------------------------------- quarantine

  /** How a quarantine ended: the entries in memory, the entry whose turn failed, and whether
      the closing manifest write reached the disk. */
  datatype Quarantined = Quarantined(ran: Ran, memory: seq<Entry>, failedAt: Option<nat>, closed: bool)

  function Entries(batch: string, items: seq<(Path, Digest)>): (es: seq<Entry>)
    ensures |es| == |items|
    ensures forall k | 0 <= k < |es| ::
              es[k] == Entry(items[k].0, StoredPath(batch, items[k].0), items[k].1, Planned)
  {
    seq(|items|, k requires 0 <= k < |items| =>
      Entry(items[k].0, StoredPath(batch, items[k].0), items[k].1, Planned))
  }

  predicate ItemOk(env: Env, d: Disk, eligible: map<Path, Digest>, item: (Path, Digest)) {
    && env.cacheable(item.0) && item.0 in eligible
    && item.0 in d.files && env.hash(d.files[item.0]) == item.1
  }

  /** Whole-selection validation, before anything is touched. */
  predicate SelectionOk(env: Env, d: Disk, batch: string, items: seq<(Path, Digest)>, eligible: map<Path, Digest>) {
    && |items| > 0
    && (forall k | 0 <= k < |items| :: ItemOk(env, d, eligible, items[k]))
    && (forall j, k | 0 <= j < k < |items| :: items[j].0 != items[k].0)
    && d.manifest.None?
    && (forall k | 0 <= k < |items| :: StoredPath(batch, items[k].0) !in d.files)
  }

  function SetStatus(es: seq<Entry>, k: nat, s: Status): seq<Entry>
    requires k < |es|
  {
    es[k := es[k].(status := s)]
  }

  /** The entries in memory after one rollback move ended with `exit`. */
  function AfterRollback(es: seq<Entry>, j: nat, exit: Exit): seq<Entry>
    requires j < |es|
  {
    SetStatus(es, j, if exit == Finished then RolledBack else RollbackFailed)
  }

  /** Put entries `j..m` back one by one, noting the ones that would not go. */
  function PutBack(env: Env, d: Disk, clock: nat, es: seq<Entry>, j: nat, m: nat): (r: (Ran, seq<Entry>))
    requires j <= m <= |es|
    ensures r.0.exit != Error && |r.1| == |es|
    decreases m - j
  {
    if j == m then (Ran(d, clock, Finished), es)
    else
      var back := MoveFile(env, d, clock, es[j].stored, es[j].path);
      if back.exit == Crashed then (back, es)
      else PutBack(env, back.disk, back.clock, AfterRollback(es, j, back.exit), j + 1, m)
  }

  /** Put the first `m` entries back, then try once to write down what became of them. */
  function RollBack(env: Env, d: Disk, clock: nat, es: seq<Entry>, m: nat, failedAt: nat): Quarantined
    requires m <= |es|
  {
    var (back, es') := PutBack(env, d, clock, es, 0, m);
    if back.exit == Crashed then Quarantined(back, es', Some(failedAt), false)
    else
      var w := AtomicWrite(env, back.disk, back.clock, es');
      Quarantined(if w.exit == Crashed then w else w.(exit := Error), es', Some(failedAt), w.exit == Finished)
  }

  /** The last look before a move: the bytes are still the selected ones and the store is free. */
  predicate StillMovable(env: Env, d: Disk, e: Entry) {
    e.path in d.files && env.hash(d.files[e.path]) == e.digest && e.stored !in d.files
  }

  datatype Turn = Next(disk: Disk, clock: nat, es: seq<Entry>) | Stop(result: Quarantined)

  /** One entry's turn: look again, move, record; any failure rolls the batch back. */
  function MoveTurn(env: Env, d: Disk, clock: nat, es: seq<Entry>, i: nat): (turn: Turn)
    requires i < |es|
    ensures turn.Next? ==> |turn.es| == |es| && turn.disk.manifest == Some(turn.es)
  {
    if !StillMovable(env, d, es[i]) then Stop(RollBack(env, d, clock, es, i, i))
    else
      var moved := MoveFile(env, d, clock, es[i].path, es[i].stored);
      match moved.exit
      case Crashed => Stop(Quarantined(moved, es, None, false))
      case Error => Stop(RollBack(env, moved.disk, moved.clock, es, i, i))
      case Finished =>
        var es' := SetStatus(es, i, Moved);
        var w := AtomicWrite(env, moved.disk, moved.clock, es');
        match w.exit
        case Crashed => Stop(Quarantined(w, es', None, false))
        case Error => Stop(RollBack(env, w.disk, w.clock, es', i + 1, i))
        case Finished => Next(w.disk, w.clock, es')
  }

  function MoveFrom(env: Env, d: Disk, clock: nat, es: seq<Entry>, i: nat): Quarantined
    requires i <= |es|
    decreases |es| - i
  {
    if i == |es| then
      var w := AtomicWrite(env, d, clock, es);
      Quarantined(w, es, None, w.exit == Finished)
    else
      match MoveTurn(env, d, clock, es, i)
      case Stop(q) => q
      case Next(d', clock', es') => MoveFrom(env, d', clock', es', i + 1)
  }

  /** The eligibility verdict, derived once more after the manifest is down. */
  predicate StillEligible(items: seq<(Path, Digest)>, rechecked: map<Path, Digest>) {
    forall k | 0 <= k < |items| :: items[k].0 in rechecked && rechecked[items[k].0] == items[k].1
  }

  function Quarantine(env: Env, d: Disk, clock: nat, batch: string, items: seq<(Path, Digest)>,
                      eligible: map<Path, Digest>, rechecked: map<Path, Digest>): Quarantined
  {
    if !SelectionOk(env, d, batch, items, eligible) then Quarantined(Ran(d, clock, Error), [], None, false)
    else
      var es := Entries(batch, items);
      var w := AtomicWrite(env, d, clock, es);
      if w.exit != Finished then Quarantined(w, es, None, false)
      else if !StillEligible(items, rechecked) then Quarantined(w.(exit := Error), es, None, true)
      else MoveFrom(env, w.disk, w.clock, es, 0)
  }

  // ---------------------------------------------------------------- restore

  datatype Plan = Refused | Ready(entries: seq<Entry>, todo: seq<nat>)

  datatype Ruling = Skip | Reconcile(status: Status) | MoveBack | Refuse

  /** What restore decides about one entry. */
  function Rule(env: Env, d: Disk, batch: string, e: Entry): Ruling {
    if !Recoverable(e.status) then Skip
    else if !env.cacheable(e.path) || e.stored != StoredPath(batch, e.path) then Refuse
    else if e.stored !in d.files then
      if e.path in d.files then
        if env.hash(d.files[e.path]) == e.digest then Reconcile(Restored) else Refuse
      else if e.status == Planned || e.status == RollbackFailed then Reconcile(NotMoved)
      else Refuse
    else if env.hash(d.files[e.stored]) != e.digest || e.path in env.tracked || e.path in d.files then Refuse
    else MoveBack
  }

  /** Add the ruling on entry `k` to the plan. */
  function Extend(p: Plan, k: nat, ruling: Ruling): Plan
    requires p.Ready? ==> k < |p.entries|
  {
    if p.Refused? then Refused
    else
      match ruling
      case Skip => p
      case Reconcile(s) => p.(entries := SetStatus(p.entries, k, s))
      case MoveBack => p.(todo := p.todo + [k])
      case Refuse => Refused
  }

  /** Validate the first `n` entries, in memory only. */
  function PlanRestore(env: Env, d: Disk, batch: string, es: seq<Entry>, n: nat): (p: Plan)
    requires n <= |es|
    ensures p.Ready? ==> |p.entries| == |es| && forall j | 0 <= j < |p.todo| :: p.todo[j] < |es|
  {
    if n == 0 then Ready(es, [])
    else Extend(PlanRestore(env, d, batch, es, n - 1), n - 1, Rule(env, d, batch, es[n - 1]))
  }

  function MoveBackFrom(env: Env, d: Disk, clock: nat, es: seq<Entry>, todo: seq<nat>): Ran
    requires forall j | 0 <= j < |todo| :: todo[j] < |es|
    decreases |todo|
  {
    if todo == [] then AtomicWrite(env, d, clock, es)
    else
      var k := todo[0];
      var back := MoveFile(env, d, clock, es[k].stored, es[k].path);
      match back.exit
      case Crashed => back
      case Error =>
        var w := AtomicWrite(env, back.disk, back.clock, es);
        if w.exit == Crashed then w else w.(exit := Error)
      case Finished =>
        var es' := SetStatus(es, k, Restored);
        var w := AtomicWrite(env, back.disk, back.clock, es');
        if w.exit != Finished then w else MoveBackFrom(env, w.disk, w.clock, es', todo[1..])
  }

  function Restore(env: Env, d: Disk, clock: nat, batch: string): Ran {
    if d.manifest.None? then Ran(d, clock, Error)
    else
      match PlanRestore(env, d, batch, d.manifest.value, |d.manifest.value|)
      case Refused => Ran(d, clock, Error)
      case Ready(es, todo) => MoveBackFrom(env, d, clock, es, todo)
  }
}
