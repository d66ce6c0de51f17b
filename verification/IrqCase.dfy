/** What a reported case guarantees, against a log of what crossed the pins since the case began. */
module IrqCase {
  import opened Wrappers
  import opened Ram
  import opened IrqHost

  // ---------------------------------------------------------------- interrupts

  /** Ticks of rising source edges and of interrupt takes since tick `from`. */
  datatype IrqLog = IrqLog(from: nat, edges: seq<nat>, takes: seq<nat>)

  function LogIrq(log: IrqLog, irq: Irq, p: Pins, now: nat): IrqLog {
    log.(edges := log.edges + (if Rises(irq, p.irq) then [now] else []),
         takes := log.takes + (if p.irqTake then [now] else []))
  }

  /** Some source rose at most `width` ticks before t. */
  predicate Sourced(edges: seq<nat>, width: nat, t: nat) {
    exists k :: 0 <= k < |edges| && edges[k] < t <= edges[k] + width
  }

  predicate IrqOk(width: nat, irq: Irq, log: IrqLog, now: nat) {
    && |log.edges| == irq.sources && |log.takes| == irq.takes && irq.pulse <= width
    && (forall k :: 0 <= k < |log.edges| ==> log.from <= log.edges[k] < now)
    && (forall k :: 0 <= k < |log.takes| ==> log.takes[k] < now && Sourced(log.edges, width, log.takes[k]))
    && log.from <= now
    && (irq.pulse > 0 ==> log.edges != [] && log.edges[|log.edges| - 1] + width - irq.pulse + 1 == now)
  }

  lemma MoreEdges(edges: seq<nat>, more: seq<nat>, width: nat, t: nat)
    requires Sourced(edges, width, t)
    ensures Sourced(edges + more, width, t)
  {
    var k :| 0 <= k < |edges| && edges[k] < t <= edges[k] + width;
    assert (edges + more)[k] == edges[k];
  }

  lemma IrqStepOk(width: nat, irq: Irq, log: IrqLog, p: Pins, now: nat)
    requires IrqOk(width, irq, log, now) && IrqStep(irq, p, width).Some?
    ensures IrqOk(width, IrqStep(irq, p, width).value, LogIrq(log, irq, p, now), now + 1)
  {
    var next := LogIrq(log, irq, p, now);
    var more := if Rises(irq, p.irq) then [now] else [];
    forall k | 0 <= k < |next.takes|
      ensures next.takes[k] < now + 1 && Sourced(next.edges, width, next.takes[k])
    {
      if k == |log.takes| { assert log.edges[|log.edges| - 1] < now <= log.edges[|log.edges| - 1] + width; }
      MoreEdges(log.edges, more, width, next.takes[k]);
    }
  }

  // ---------------------------------------------------------------- data

  datatype Write = Write(offset: int, value: bv32)

  /** Who the response in flight on the data side answers. */
  datatype Owner = FromRam | FromTarget | FromResultStore

  datatype DataLog = DataLog(
    accepted: seq<Write>,        // writes taken for the target
    targetReads: seq<bv32>,      // values the target returned
    results: seq<bv32>,          // values stored at the result address
    owner: Owner,
    completed: nat)              // consumed responses of result stores

  const NoData := DataLog([], [], [], FromRam, 0)

  function LogConsume(log: DataLog, d: Data, p: Pins): DataLog {
    if DConsume(d, p) && log.owner.FromResultStore? then log.(completed := log.completed + 1) else log
  }

  function LogTake(cfg: Config, log: DataLog, p: Pins): DataLog {
    if InTarget(cfg, p.daddr) then
      if p.dwrite then log.(accepted := log.accepted + [Write(p.daddr - cfg.ipBase, p.dvalue)]) else log
    else if p.dwrite && p.daddr == cfg.resultAddress then
      log.(results := log.results + [p.dvalue], owner := FromResultStore)
    else log.(owner := FromRam)
  }

  function LogDone(log: DataLog, d: Data, p: Pins): DataLog {
    if !p.ipRspValid then log
    else log.(owner := FromTarget, targetReads := log.targetReads + if d.mmio.write then [] else [p.ipValue])
  }

  function LogData(cfg: Config, log: DataLog, d: Data, p: Pins, bytes: seq<bv8>, values: seq<bv32>): DataLog {
    var c := LogConsume(log, d, p);
    var t := if DTake(d, p) then LogTake(cfg, c, p) else c;
    var taken := if DTake(d, p) then Take(cfg, values, Consume(d, p), bytes, p) else Some((Consume(d, p), bytes));
    if taken.None? then t else LogDone(t, taken.value.0, p)
  }

  /** The trigger list with the installed values, in order. */
  function Expected(cfg: Config, values: seq<bv32>): (r: seq<Write>)
    requires |values| == |cfg.triggers|
    ensures |r| == |values|
    ensures forall k :: 0 <= k < |r| ==> r[k] == Write(cfg.triggers[k], values[k])
  {
    seq(|values|, k requires 0 <= k < |values| => Write(cfg.triggers[k], values[k]))
  }

  predicate WritesOk(cfg: Config, values: seq<bv32>, d: Data, log: DataLog) {
    && |values| == |cfg.triggers|
    && d.writeCount + (if d.mmio.busy && d.mmio.write then 1 else 0) == |log.accepted| <= |values|
    && log.accepted == Expected(cfg, values)[..|log.accepted|]
  }

  predicate ReadsOk(d: Data, log: DataLog) {
    && |log.targetReads| == d.readCount
    && (d.result.observed <==> log.targetReads != [])
    && (log.targetReads != [] ==> d.result.value == log.targetReads[|log.targetReads| - 1])
    && (forall k :: 0 <= k < |log.results| ==> log.results[k] in log.targetReads)
  }

  predicate ResponsesOk(d: Data, log: DataLog) {
    && !(d.dat.valid && d.mmio.busy)
    && (d.result.pending <==> d.dat.valid && log.owner.FromResultStore?)
    && |log.results| == log.completed + (if d.result.pending then 1 else 0)
    && (d.result.stored <==> log.results != [])
    && (d.result.complete <==> log.completed > 0)
  }

  /** The last value stored at the result address is still there. */
  predicate MemoryOk(cfg: Config, bytes: seq<bv8>, log: DataLog) {
    log.results != [] ==> Fetch(cfg.ramBase, bytes, cfg.resultAddress) == Ok(log.results[|log.results| - 1])
  }

  predicate DataOk(cfg: Config, values: seq<bv32>, d: Data, bytes: seq<bv8>, log: DataLog) {
    WritesOk(cfg, values, d, log) && ReadsOk(d, log) && ResponsesOk(d, log) && MemoryOk(cfg, bytes, log)
  }

  /** A word write changes its own word as given and no other word. */
  lemma StoreFetch(base: nat, bytes: seq<bv8>, address: nat, value: bv32, be: bv8, other: nat)
    requires StoreWord(base, bytes, address, value, be).Ok?
    ensures other != address && Fetch(base, bytes, other).Ok? ==>
              Fetch(base, StoreWord(base, bytes, address, value, be).value, other) == Fetch(base, bytes, other)
    ensures be == 15 ==> Fetch(base, StoreWord(base, bytes, address, value, be).value, address) == Ok(value)
  {
    var after := StoreWord(base, bytes, address, value, be).value;
    WordOfBytes(value);
    Lanes4Is(15);
    if other != address && Fetch(base, bytes, other).Ok? {
      assert after[other - base..other - base + 4] == bytes[other - base..other - base + 4];
    }
    if be == 15 {
      assert after[address - base..address - base + 4] == Bytes4(value);
    }
  }

  lemma ConsumeOk(cfg: Config, values: seq<bv32>, d: Data, bytes: seq<bv8>, log: DataLog, p: Pins)
    requires DataOk(cfg, values, d, bytes, log)
    ensures DataOk(cfg, values, Consume(d, p), bytes, LogConsume(log, d, p))
  {
  }

  lemma TakeTargetOk(cfg: Config, values: seq<bv32>, d: Data, bytes: seq<bv8>, log: DataLog, p: Pins)
    requires DataOk(cfg, values, d, bytes, log) && !d.dat.valid && !d.mmio.busy
    requires InTarget(cfg, p.daddr) && Take(cfg, values, d, bytes, p).Some?
    ensures var r := Take(cfg, values, d, bytes, p).value; DataOk(cfg, values, r.0, r.1, LogTake(cfg, log, p))
  {
  }

  lemma TakeRamOk(cfg: Config, values: seq<bv32>, d: Data, bytes: seq<bv8>, log: DataLog, p: Pins)
    requires DataOk(cfg, values, d, bytes, log) && !d.dat.valid && !d.mmio.busy
    requires !InTarget(cfg, p.daddr) && Take(cfg, values, d, bytes, p).Some?
    ensures var r := Take(cfg, values, d, bytes, p).value; DataOk(cfg, values, r.0, r.1, LogTake(cfg, log, p))
  {
    if p.dwrite {
      StoreFetch(cfg.ramBase, bytes, p.daddr, p.dvalue, p.dbe, cfg.resultAddress);
    }
  }

  lemma DoneOk(cfg: Config, values: seq<bv32>, d: Data, bytes: seq<bv8>, log: DataLog, p: Pins)
    requires DataOk(cfg, values, d, bytes, log) && TargetDone(d, p).Some?
    ensures DataOk(cfg, values, TargetDone(d, p).value, bytes, LogDone(log, d, p))
  {
  }

  lemma DataStepOk(cfg: Config, values: seq<bv32>, d: Data, bytes: seq<bv8>, log: DataLog, p: Pins)
    requires DataOk(cfg, values, d, bytes, log) && DataStep(cfg, values, d, bytes, p).Some?
    ensures var r := DataStep(cfg, values, d, bytes, p).value;
            DataOk(cfg, values, r.0, r.1, LogData(cfg, log, d, p, bytes, values))
  {
    var c, cl := Consume(d, p), LogConsume(log, d, p);
    ConsumeOk(cfg, values, d, bytes, log, p);
    var t, tb, tl := c, bytes, cl;
    if DTake(d, p) {
      if InTarget(cfg, p.daddr) {
        TakeTargetOk(cfg, values, c, bytes, cl, p);
      } else {
        TakeRamOk(cfg, values, c, bytes, cl, p);
      }
      t, tb, tl := Take(cfg, values, c, bytes, p).value.0, Take(cfg, values, c, bytes, p).value.1, LogTake(cfg, cl, p);
    }
    var sent := if IpTake(d, p) then t.(mmio := t.mmio.(sent := true)) else t;
    assert DataOk(cfg, values, sent, tb, tl);
    DoneOk(cfg, values, sent, tb, tl, p);
  }
}
