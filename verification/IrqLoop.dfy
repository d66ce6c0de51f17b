/** The host loop as it runs, over the host's own fields and RAM. */
module IrqLoop {
  import opened Wrappers
  import opened Ram
  import opened IrqHost
  import opened IrqRun

  datatype Verdict = Fail | Go | Stop

  class Host {
    const cfg: Config
    const mem: Memory
    var irq: Irq
    var retire: Retire
    var apb: nat
    var ins: Response
    var data: Data
    var values: seq<bv32>
    var cases: nat

    ghost predicate Valid() { mem.base == cfg.ramBase }

    ghost function Value(): State
      reads this, mem.data
    {
      State(irq, retire, apb, ins, data, mem.data[..], values, cases)
    }

    constructor (cfg: Config, mem: Memory, values: seq<bv32>)
      requires mem.base == cfg.ramBase
      ensures Valid() && this.cfg == cfg && this.mem == mem && Value() == Start(mem.data[..], values)
    {
      this.cfg, this.mem, this.values := cfg, mem, values;
      irq, retire, apb, ins := Irq(0, false, 0, 0), Retire(false, false), 0, Response(false, 0);
      data := Data(Response(false, 0), NoMmio, 0, 0, ResultFlags(false, 0, false, false, false));
      cases := 0;
    }

    method Observe(p: Pins) returns (ok: bool)
      modifies this`irq, this`retire, this`apb
      ensures ok == (IrqStep(old(irq), p, cfg.irqWidth).Some? && RetireStep(old(retire), p).Some?)
      ensures ok ==> IrqStep(old(irq), p, cfg.irqWidth) == Some(irq) && RetireStep(old(retire), p) == Some(retire)
      ensures ok ==> apb == old(apb) + if p.apbAccess then 1 else 0
    {
      if p.irqTake {
        if irq.pulse == 0 { return false; }
        irq := irq.(takes := irq.takes + 1);
      }
      if p.apbAccess { apb := apb + 1; }
      if p.retired {
        if p.trap { return false; }
        if p.isMret { retire := retire.(mret := true); }
        else if retire.mret { retire := retire.(successor := true); }
      }
      if p.irq && !irq.last { irq := irq.(sources := irq.sources + 1, pulse := cfg.irqWidth); }
      else if irq.pulse > 0 { irq := irq.(pulse := irq.pulse - 1); }
      irq := irq.(last := p.irq);
      ok := true;
    }

    method FetchInstruction(p: Pins) returns (ok: bool)
      requires Valid()
      modifies this`ins
      ensures ok == FetchStep(cfg, old(ins), mem.data[..], p).Some?
      ensures ok ==> FetchStep(cfg, old(ins), mem.data[..], p) == Some(ins)
    {
      var take := p.ireq && !ins.valid;
      if ins.valid && p.irspReady { ins := ins.(valid := false); }
      if take {
        var word := mem.Read(p.iaddr);
        if word.Err? { return false; }
        ins := Response(true, word.value);
      }
      ok := true;
    }

    method TakeData(p: Pins) returns (ok: bool)
      requires Valid()
      modifies this`data, mem.data
      ensures ok == Take(cfg, values, old(data), old(mem.data[..]), p).Some?
      ensures ok ==> Take(cfg, values, old(data), old(mem.data[..]), p) == Some((data, mem.data[..]))
    {
      if InTarget(cfg, p.daddr) {
        if !TargetAccessOk(cfg, values, data, p) { return false; }
        data := data.(mmio := Mmio(true, false, p.dwrite, p.daddr - cfg.ipBase, p.dvalue));
      } else if p.dwrite {
        ok := mem.Write(p.daddr, p.dvalue, p.dbe);
        if !ok { return; }
        if p.daddr == cfg.resultAddress {
          if !ResultOk(data.result, p) { return false; }
          data := data.(result := data.result.(stored := true, pending := true));
        }
        data := data.(dat := Response(true, 0));
      } else {
        var word := mem.Read(p.daddr);
        if word.Err? { return false; }
        data := data.(dat := Response(true, word.value));
      }
      ok := true;
    }

    method ServeData(p: Pins) returns (ok: bool)
      requires Valid()
      modifies this`data, mem.data
      ensures ok == DataStep(cfg, values, old(data), old(mem.data[..]), p).Some?
      ensures ok ==> DataStep(cfg, values, old(data), old(mem.data[..]), p) == Some((data, mem.data[..]))
    {
      var take, ipTake := DTake(data, p), IpTake(data, p);
      data := Consume(data, p);
      if take {
        ok := TakeData(p);
        if !ok { return; }
      }
      if ipTake { data := data.(mmio := data.mmio.(sent := true)); }
      var done := TargetDone(data, p);
      if done.None? { return false; }
      data := done.value;
      ok := true;
    }

    /** The tick up to the test for the end of the case. */
    method ServeTick(p: Pins) returns (ok: bool)
      requires Valid()
      modifies this, mem.data
      ensures values == old(values) && cases == old(cases)
      ensures ok == Body(cfg, old(Value()), p).Some?
      ensures ok ==> Body(cfg, old(Value()), p) == Some(Value())
    {
      ok := Observe(p);
      if !ok { return; }
      ok := FetchInstruction(p);
      if !ok { return; }
      ok := ServeData(p);
    }

    /** The record of the next case, written word by word and its flag last. */
    method InstallRecord(record: seq<bv32>) returns (ok: bool)
      requires Valid()
      modifies mem.data
      ensures ok == Install(cfg, old(mem.data[..]), record, 0).Ok?
      ensures ok ==> Install(cfg, old(mem.data[..]), record, 0) == Ok(mem.data[..])
    {
      var n := 0;
      while n < |record|
        invariant 0 <= n <= |record|
        invariant Install(cfg, mem.data[..], record, n) == Install(cfg, old(mem.data[..]), record, 0)
      {
        ok := mem.Write(cfg.mailbox + 4 * (n + 1), record[n], 15);
        if !ok { return; }
        n := n + 1;
      }
      ok := mem.Write(cfg.mailbox, 1, 15);
    }

    /** One turn of the loop. */
    method Step(p: Pins, record: Option<seq<bv32>>) returns (v: Verdict)
      requires Valid()
      modifies this, mem.data
      ensures v.Fail? <==> Tick(cfg, old(Value()), p, record).Failed?
      ensures v.Go? ==> Tick(cfg, old(Value()), p, record) == Running(Value())
      ensures v.Stop? ==> Tick(cfg, old(Value()), p, record) == Finished(Value())
    {
      var ok := ServeTick(p);
      if !ok { return Fail; }
      ghost var body := Value();
      if !Ends(State(irq, retire, apb, ins, data, [], values, cases)) { return Go; }
      var result := mem.Read(cfg.resultAddress);
      var passed := irq.sources >= 1 && irq.takes == 1 && data.writeCount == |cfg.triggers| && data.readCount == 1
        && apb == |cfg.triggers| + 1 && result == Ok(data.result.value);
      if !passed { return Fail; }
      v := CloseCase(record, body);
    }

    method CloseCase(record: Option<seq<bv32>>, ghost body: State) returns (v: Verdict)
      requires Valid() && body == Value()
      modifies this, mem.data
      ensures v.Fail? <==> NextCase(cfg, body, record).Failed?
      ensures v.Go? ==> NextCase(cfg, body, record) == Running(Value())
      ensures v.Stop? ==> NextCase(cfg, body, record) == Finished(Value())
    {
      cases := cases + 1;
      if !cfg.online { return Stop; }
      var flag := mem.Read(cfg.mailbox);
      if flag != Ok(0) { return Fail; }
      if record.None? { return Stop; }
      if |record.value| != |cfg.triggers| { return Fail; }
      var ok := InstallRecord(record.value);
      if !ok { return Fail; }
      values := record.value;
      irq, retire, apb := irq.(takes := 0, sources := 0), Retire(false, false), 0;
      data := data.(writeCount := 0, readCount := 0,
                    result := ResultFlags(false, data.result.value, false, false, data.result.pending));
      return Go;
    }
  }

  /** How a run over these inputs ends: it fails, finishes, or is still running when they are used up. */
  function Execution(cfg: Config, s: State, inputs: seq<Input>, n: nat): Outcome
    requires n <= |inputs|
    decreases |inputs| - n
  {
    if n == |inputs| then Running(s)
    else
      var o := Tick(cfg, s, inputs[n].pins, inputs[n].record);
      if o.Running? then Execution(cfg, o.state, inputs, n + 1) else o
  }

  /** The whole loop, bounded by the inputs; it succeeds exactly when the run finishes by itself. */
  method Execute(host: Host, inputs: seq<Input>) returns (ok: bool)
    requires host.Valid()
    modifies host, host.mem.data
    ensures ok <==> Execution(host.cfg, old(host.Value()), inputs, 0).Finished?
    ensures ok ==> Execution(host.cfg, old(host.Value()), inputs, 0) == Finished(host.Value())
  {
    var tick := 0;
    while tick < |inputs|
      invariant 0 <= tick <= |inputs|
      invariant Execution(host.cfg, host.Value(), inputs, tick) == Execution(host.cfg, old(host.Value()), inputs, 0)
    {
      var v := host.Step(inputs[tick].pins, inputs[tick].record);
      if !v.Go? { return v.Stop?; }
      tick := tick + 1;
    }
    ok := false;
  }
}
