/** The worktree as the tool sees it: fields updated in place by moves and manifest rewrites. */
module Worktree {
  import opened Wrappers
  import opened QuarantineModel
  import opened QuarantineSafety

  class Tree {
    var files: map<Path, Bytes>
    var manifest: Option<seq<Entry>>
    var temp: bool
    var clock: nat
    const env: Env

    function Snapshot(): Disk
      reads this
    {
      Disk(files, manifest, temp)
    }

    constructor (files: map<Path, Bytes>, env: Env)
      ensures Snapshot() == Disk(files, None, false) && clock == 0 && this.env == env
    {
      this.files, manifest, temp, clock, this.env := files, None, false, 0, env;
    }

    method Move(source: Path, target: Path) returns (exit: Exit)
      modifies this
      ensures Ran(Snapshot(), clock, exit) == MoveFile(env, old(Snapshot()), old(clock), source, target)
    {
      var fate := env.fates(clock);
      clock := clock + 1;
      if fate == Dies { return Crashed; }
      if fate == Fails || source !in files { return Error; }
      files := Rename(files, source, target);
      exit := Finished;
    }

    method Write(entries: seq<Entry>) returns (exit: Exit)
      modifies this
      ensures Ran(Snapshot(), clock, exit) == AtomicWrite(env, old(Snapshot()), old(clock), entries)
    {
      var fate := env.fates(clock);
      clock := clock + 1;
      temp := fate != Fails;
      if fate == Dies { return Crashed; }
      if fate == Fails { return Error; }
      fate := env.fates(clock);
      clock := clock + 1;
      if fate == Dies { return Crashed; }
      temp := false;
      if fate == Fails { return Error; }
      manifest := Some(entries);
      exit := Finished;
    }

    /** Put the first `m` entries back, then write down what became of them. */
    method RollBackBatch(es: seq<Entry>, m: nat, failedAt: nat) returns (q: Quarantined)
      requires m <= |es|
      modifies this
      ensures q == RollBack(env, old(Snapshot()), old(clock), es, m, failedAt)
      ensures Snapshot() == q.ran.disk && clock == q.ran.clock
    {
      var records := es;
      ghost var planned := PutBack(env, Snapshot(), clock, es, 0, m);
      for j := 0 to m
        invariant |records| == |es|
        invariant planned == PutBack(env, Snapshot(), clock, records, j, m)
      {
        var exit := Move(records[j].stored, records[j].path);
        if exit == Crashed {
          return Quarantined(Ran(Snapshot(), clock, Crashed), records, Some(failedAt), false);
        }
        records := AfterRollback(records, j, exit);
      }
      var exit := Write(records);
      q := Quarantined(Ran(Snapshot(), clock, if exit == Crashed then Crashed else Error),
                       records, Some(failedAt), exit == Finished);
    }

    /** Validate everything, write the plan down, then move one file at a time. */
    method QuarantineBatch(batch: string, items: seq<(Path, Digest)>,
                           eligible: map<Path, Digest>, rechecked: map<Path, Digest>) returns (q: Quarantined)
      modifies this
      ensures q == Quarantine(env, old(Snapshot()), old(clock), batch, items, eligible, rechecked)
      ensures Snapshot() == q.ran.disk && clock == q.ran.clock
      ensures Selected(env, old(Snapshot()), batch, items, eligible) ==>
                Safe(old(files), Snapshot(), Entries(batch, items))
    {
      if Selected(env, Snapshot(), batch, items, eligible) {
        QuarantineSafe(env, Snapshot(), clock, batch, items, eligible, rechecked);
      }
      if !SelectionOk(env, Snapshot(), batch, items, eligible) {
        return Quarantined(Ran(Snapshot(), clock, Error), [], None, false);
      }
      var records := Entries(batch, items);
      var exit := Write(records);
      if exit != Finished { return Quarantined(Ran(Snapshot(), clock, exit), records, None, false); }
      if !StillEligible(items, rechecked) {
        return Quarantined(Ran(Snapshot(), clock, Error), records, None, true);
      }
      q := MoveAll(records);
    }

    method MoveAll(es: seq<Entry>) returns (q: Quarantined)
      modifies this
      ensures q == MoveFrom(env, old(Snapshot()), old(clock), es, 0)
      ensures Snapshot() == q.ran.disk && clock == q.ran.clock
    {
      var records := es;
      ghost var whole := MoveFrom(env, Snapshot(), clock, es, 0);
      for i := 0 to |es|
        invariant |records| == |es|
        invariant whole == MoveFrom(env, Snapshot(), clock, records, i)
      {
        ghost var turn := MoveTurn(env, Snapshot(), clock, records, i);
        if !StillMovable(env, Snapshot(), records[i]) {
          q := RollBackBatch(records, i, i);
          return;
        }
        var exit := Move(records[i].path, records[i].stored);
        if exit == Crashed { return Quarantined(Ran(Snapshot(), clock, Crashed), records, None, false); }
        if exit == Error {
          q := RollBackBatch(records, i, i);
          return;
        }
        records := SetStatus(records, i, Moved);
        exit := Write(records);
        if exit == Crashed { return Quarantined(Ran(Snapshot(), clock, Crashed), records, None, false); }
        if exit == Error {
          q := RollBackBatch(records, i + 1, i);
          return;
        }
        assert turn == Next(Snapshot(), clock, records);
      }
      var exit := Write(records);
      q := Quarantined(Ran(Snapshot(), clock, exit), records, None, exit == Finished);
    }

    /** Validate the whole manifest in memory, then move back and rewrite after every move. */
    method RestoreBatch(batch: string) returns (exit: Exit)
      modifies this
      ensures Ran(Snapshot(), clock, exit) == Restore(env, old(Snapshot()), old(clock), batch)
    {
      if manifest.None? { return Error; }
      var plan := Ready(manifest.value, []);
      for n := 0 to |manifest.value|
        invariant manifest == old(manifest) && Snapshot() == old(Snapshot()) && clock == old(clock) && manifest.Some?
        invariant plan == PlanRestore(env, Snapshot(), batch, manifest.value, n)
      {
        plan := Extend(plan, n, Rule(env, Snapshot(), batch, manifest.value[n]));
      }
      if plan.Refused? { return Error; }
      exit := MoveBackAll(plan.entries, plan.todo);
    }

    method MoveBackAll(es: seq<Entry>, todo: seq<nat>) returns (exit: Exit)
      requires forall j | 0 <= j < |todo| :: todo[j] < |es|
      modifies this
      ensures Ran(Snapshot(), clock, exit) == MoveBackFrom(env, old(Snapshot()), old(clock), es, todo)
    {
      var records := es;
      ghost var whole := MoveBackFrom(env, Snapshot(), clock, es, todo);
      for j := 0 to |todo|
        invariant |records| == |es|
        invariant whole == MoveBackFrom(env, Snapshot(), clock, records, todo[j..])
      {
        var k := todo[j];
        assert todo[j..][1..] == todo[j + 1..];
        exit := Move(records[k].stored, records[k].path);
        if exit == Crashed { return; }
        if exit == Error {
          exit := Write(records);
          return if exit == Crashed then Crashed else Error;
        }
        records := SetStatus(records, k, Restored);
        exit := Write(records);
        if exit != Finished { return; }
      }
      exit := Write(records);
    }
  }
}
