/** The host loop around an OBI CPU and an APB target that raises an interrupt.

    The two models are only seen through their pins; the host owns the RAM, the routing of data
    accesses, the interrupt pulse and the decision when a case is over. */
module IrqHost {
  import opened Wrappers
  import opened Ram

  datatype Config = Config(
    online: bool, ramBase: nat, ipBase: nat, ipSize: nat, triggers: seq<nat>, statusOffset: nat,
    resultAddress: nat, mailbox: nat, irqWidth: nat)

  /** What the two models show in one tick. */
  datatype Pins = Pins(
    ireq: bool, iaddr: nat, irspReady: bool,
    dreq: bool, daddr: nat, dwrite: bool, dvalue: bv32, dbe: bv8, drspReady: bool,
    irqTake: bool, apbAccess: bool, retired: bool, trap: bool, isMret: bool, irq: bool,
    ipReqReady: bool, ipRspValid: bool, ipValue: bv32, ipError: bool)

  datatype Response = Response(valid: bool, value: bv32)

  datatype Mmio = Mmio(busy: bool, sent: bool, write: bool, address: int, value: bv32)

  const NoMmio := Mmio(false, false, false, 0, 0)

  datatype Irq = Irq(pulse: nat, last: bool, takes: nat, sources: nat)

  datatype ResultFlags = ResultFlags(observed: bool, value: bv32, stored: bool, complete: bool, pending: bool)

  datatype Data = Data(dat: Response, mmio: Mmio, writeCount: nat, readCount: nat, result: ResultFlags)

  datatype Retire = Retire(mret: bool, successor: bool)

  datatype State = State(irq: Irq, retire: Retire, apb: nat, ins: Response, data: Data, bytes: seq<bv8>,
                         values: seq<bv32>, cases: nat)

  // ---------------------------------------------------------------- interrupts and retirement

  /** An interrupt may only be taken while a source is being delivered. */
  function TakeIrq(irq: Irq, take: bool): Option<Irq> {
    if take && irq.pulse == 0 then None else Some(irq.(takes := irq.takes + if take then 1 else 0))
  }

  predicate Rises(irq: Irq, level: bool) { level && !irq.last }

  function Source(irq: Irq, level: bool, width: nat): Irq {
    if Rises(irq, level) then Irq(width, level, irq.takes, irq.sources + 1)
    else Irq(if irq.pulse > 0 then irq.pulse - 1 else 0, level, irq.takes, irq.sources)
  }

  function IrqStep(irq: Irq, p: Pins, width: nat): Option<Irq> {
    var taken := TakeIrq(irq, p.irqTake);
    if taken.None? then None else Some(Source(taken.value, p.irq, width))
  }

  function RetireStep(r: Retire, p: Pins): Option<Retire> {
    if !p.retired then Some(r)
    else if p.trap then None
    else if p.isMret then Some(r.(mret := true))
    else Some(r.(successor := r.successor || r.mret))
  }

  // ---------------------------------------------------------------- the data side

  predicate DTake(d: Data, p: Pins) { p.dreq && !d.dat.valid && !d.mmio.busy }

  predicate DConsume(d: Data, p: Pins) { d.dat.valid && p.drspReady }

  predicate IpTake(d: Data, p: Pins) { d.mmio.busy && !d.mmio.sent && p.ipReqReady }

  predicate InTarget(cfg: Config, address: nat) { cfg.ipBase <= address < cfg.ipBase + cfg.ipSize }

  function Consume(d: Data, p: Pins): Data {
    if !DConsume(d, p) then d
    else d.(dat := d.dat.(valid := false),
            result := if d.result.pending then d.result.(complete := true, pending := false) else d.result)
  }

  predicate TargetAccessOk(cfg: Config, values: seq<bv32>, d: Data, p: Pins) {
    p.dbe == 15 &&
    if p.dwrite then
      && d.writeCount < |cfg.triggers| && d.writeCount < |values|
      && p.daddr == cfg.ipBase + cfg.triggers[d.writeCount] && p.dvalue == values[d.writeCount]
    else p.daddr == cfg.ipBase + cfg.statusOffset
  }

  predicate ResultOk(r: ResultFlags, p: Pins) { r.observed && p.dbe == 15 && p.dvalue == r.value }

  /** A data access taken: to the target's window, or to the RAM. */
  function Take(cfg: Config, values: seq<bv32>, d: Data, bytes: seq<bv8>, p: Pins): Option<(Data, seq<bv8>)> {
    if InTarget(cfg, p.daddr) then
      if !TargetAccessOk(cfg, values, d, p) then None
      else Some((d.(mmio := Mmio(true, false, p.dwrite, p.daddr - cfg.ipBase, p.dvalue)), bytes))
    else if p.dwrite then
      var stored := StoreWord(cfg.ramBase, bytes, p.daddr, p.dvalue, p.dbe);
      if stored.Err? || (p.daddr == cfg.resultAddress && !ResultOk(d.result, p)) then None
      else
        var result := if p.daddr == cfg.resultAddress then d.result.(stored := true, pending := true) else d.result;
        Some((d.(dat := Response(true, 0), result := result), stored.value))
    else
      var word := Fetch(cfg.ramBase, bytes, p.daddr);
      if word.Err? then None else Some((d.(dat := Response(true, word.value)), bytes))
  }

  function TargetDone(d: Data, p: Pins): Option<Data> {
    if !p.ipRspValid then Some(d)
    else if p.ipError || !d.mmio.busy || !d.mmio.sent then None
    else
      var d := d.(dat := Response(true, p.ipValue), mmio := NoMmio,
                  writeCount := d.writeCount + if d.mmio.write then 1 else 0,
                  readCount := d.readCount + if d.mmio.write then 0 else 1,
                  result := if d.mmio.write then d.result else d.result.(observed := true, value := p.ipValue));
      Some(d)
  }

  function DataStep(cfg: Config, values: seq<bv32>, d: Data, bytes: seq<bv8>, p: Pins): Option<(Data, seq<bv8>)> {
    var c := Consume(d, p);
    var taken := if DTake(d, p) then Take(cfg, values, c, bytes, p) else Some((c, bytes));
    if taken.None? then None
    else
      var sent := if IpTake(d, p) then taken.value.0.(mmio := taken.value.0.mmio.(sent := true)) else taken.value.0;
      var done := TargetDone(sent, p);
      if done.None? then None else Some((done.value, taken.value.1))
  }

  function FetchStep(cfg: Config, ins: Response, bytes: seq<bv8>, p: Pins): Option<Response> {
    var c := if ins.valid && p.irspReady then ins.(valid := false) else ins;
    if !(p.ireq && !ins.valid) then Some(c)
    else
      var word := Fetch(cfg.ramBase, bytes, p.iaddr);
      if word.Err? then None else Some(Response(true, word.value))
  }

  // ---------------------------------------------------------------- one tick

  /** The tick up to the test for the end of the case; none when the host refuses what it saw. */
  function Body(cfg: Config, s: State, p: Pins): Option<State> {
    var irq, retire := IrqStep(s.irq, p, cfg.irqWidth), RetireStep(s.retire, p);
    var ins, data := FetchStep(cfg, s.ins, s.bytes, p), DataStep(cfg, s.values, s.data, s.bytes, p);
    if irq.None? || retire.None? || ins.None? || data.None? then None
    else Some(s.(irq := irq.value, retire := retire.value, apb := s.apb + (if p.apbAccess then 1 else 0),
                 ins := ins.value, data := data.value.0, bytes := data.value.1))
  }

  predicate Ends(s: State) {
    && s.retire.mret && s.retire.successor && s.data.result.stored && s.data.result.complete
    && !s.data.dat.valid && !s.data.mmio.busy && s.irq.pulse == 0 && !s.irq.last
  }

  predicate Passed(cfg: Config, s: State) {
    && s.irq.sources >= 1 && s.irq.takes == 1 && s.data.writeCount == |cfg.triggers| && s.data.readCount == 1
    && s.apb == |cfg.triggers| + 1 && Fetch(cfg.ramBase, s.bytes, cfg.resultAddress) == Ok(s.data.result.value)
  }

  /** The record of the next case written into the mailbox, its flag last. */
  function Install(cfg: Config, bytes: seq<bv8>, values: seq<bv32>, n: nat): Result<seq<bv8>>
    requires n <= |values|
    decreases |values| - n
  {
    if n == |values| then StoreWord(cfg.ramBase, bytes, cfg.mailbox, 1, 15)
    else
      var stored := StoreWord(cfg.ramBase, bytes, cfg.mailbox + 4 * (n + 1), values[n], 15);
      if stored.Ok? then Install(cfg, stored.value, values, n + 1) else Err
  }

  function NewCase(s: State, values: seq<bv32>, bytes: seq<bv8>): State {
    s.(irq := s.irq.(takes := 0, sources := 0), retire := Retire(false, false), apb := 0,
       data := s.data.(writeCount := 0, readCount := 0,
                       result := ResultFlags(false, s.data.result.value, false, false, s.data.result.pending)),
       bytes := bytes, values := values, cases := s.cases + 1)
  }

  datatype Outcome = Failed | Running(state: State) | Finished(state: State)

  /** The end of a passed case: the run finishes, or the next record is installed. */
  function NextCase(cfg: Config, s: State, record: Option<seq<bv32>>): Outcome {
    if !cfg.online then Finished(s.(cases := s.cases + 1))
    else if Fetch(cfg.ramBase, s.bytes, cfg.mailbox) != Ok(0) then Failed
    else if record.None? then Finished(s.(cases := s.cases + 1))
    else if |record.value| != |cfg.triggers| then Failed
    else
      var bytes := Install(cfg, s.bytes, record.value, 0);
      if bytes.Ok? then Running(NewCase(s, record.value, bytes.value)) else Failed
  }

  function Tick(cfg: Config, s: State, p: Pins, record: Option<seq<bv32>>): Outcome {
    var b := Body(cfg, s, p);
    if b.None? then Failed
    else if !Ends(b.value) then Running(b.value)
    else if !Passed(cfg, b.value) then Failed
    else NextCase(cfg, b.value, record)
  }

  function Start(bytes: seq<bv8>, values: seq<bv32>): State {
    State(Irq(0, false, 0, 0), Retire(false, false), 0, Response(false, 0),
          Data(Response(false, 0), NoMmio, 0, 0, ResultFlags(false, 0, false, false, false)), bytes, values, 0)
  }
}
