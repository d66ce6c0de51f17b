/** Every case that a run of the interrupt host reports. */
module IrqRun {
  import opened Wrappers
  import opened Ram
  import opened IrqHost
  import opened IrqCase

  /** One tick's input: the pins, and the record on offer should the case end. */
  datatype Input = Input(pins: Pins, record: Option<seq<bv32>>)

  datatype World = World(state: State, irq: IrqLog, data: DataLog, now: nat)

  function Begin(bytes: seq<bv8>, values: seq<bv32>): World {
    World(Start(bytes, values), IrqLog(0, [], []), NoData, 0)
  }

  /** The logs after the body of a tick. */
  function LogBody(cfg: Config, w: World, p: Pins): World
    requires Body(cfg, w.state, p).Some?
  {
    World(Body(cfg, w.state, p).value, LogIrq(w.irq, w.state.irq, p, w.now),
          LogData(cfg, w.data, w.state.data, p, w.state.bytes, w.state.values), w.now + 1)
  }

  /** The body of this tick ends a case that passes. */
  predicate Reports(cfg: Config, w: World, p: Pins) {
    Body(cfg, w.state, p).Some? && Ends(Body(cfg, w.state, p).value) && Passed(cfg, Body(cfg, w.state, p).value)
  }

  /** The run goes on after this tick; the logs of an ended case start afresh. */
  function Next(cfg: Config, w: World, input: Input): Option<World> {
    var outcome := Tick(cfg, w.state, input.pins, input.record);
    if !outcome.Running? then None
    else
      var body := LogBody(cfg, w, input.pins);
      if Reports(cfg, w, input.pins) then Some(World(outcome.state, IrqLog(body.now, [], []), NoData, body.now))
      else Some(body)
  }

  function Run(cfg: Config, w: World, inputs: seq<Input>): Option<World> {
    if inputs == [] then Some(w)
    else
      var before := Run(cfg, w, inputs[..|inputs| - 1]);
      if before.None? then None else Next(cfg, before.value, inputs[|inputs| - 1])
  }

  predicate Good(cfg: Config, w: World) {
    && IrqOk(cfg.irqWidth, w.state.irq, w.irq, w.now)
    && DataOk(cfg, w.state.values, w.state.data, w.state.bytes, w.data)
  }

  lemma BodyGood(cfg: Config, w: World, p: Pins)
    requires Good(cfg, w) && Body(cfg, w.state, p).Some?
    ensures Good(cfg, LogBody(cfg, w, p))
  {
    IrqStepOk(cfg.irqWidth, w.state.irq, w.irq, p, w.now);
    DataStepOk(cfg, w.state.values, w.state.data, w.state.bytes, w.data, p);
  }

  lemma FreshGood(cfg: Config, s: State, values: seq<bv32>, bytes: seq<bv8>, irq: IrqLog, data: DataLog, now: nat)
    requires IrqOk(cfg.irqWidth, s.irq, irq, now) && DataOk(cfg, s.values, s.data, s.bytes, data) && Ends(s)
    requires |values| == |cfg.triggers|
    ensures Good(cfg, World(NewCase(s, values, bytes), IrqLog(now, [], []), NoData, now))
  {
  }

  lemma NextGood(cfg: Config, w: World, input: Input)
    requires Good(cfg, w) && Next(cfg, w, input).Some?
    ensures Good(cfg, Next(cfg, w, input).value)
  {
    var body := LogBody(cfg, w, input.pins);
    BodyGood(cfg, w, input.pins);
    if Reports(cfg, w, input.pins) {
      var s := Next(cfg, w, input).value.state;
      assert NextCase(cfg, body.state, input.record) == Running(s);
      FreshGood(cfg, body.state, s.values, s.bytes, body.irq, body.data, body.now);
    }
  }

  lemma {:induction false} RunGood(cfg: Config, bytes: seq<bv8>, values: seq<bv32>, inputs: seq<Input>)
    requires |values| == |cfg.triggers| && Run(cfg, Begin(bytes, values), inputs).Some?
    ensures Good(cfg, Run(cfg, Begin(bytes, values), inputs).value)
  {
    if inputs != [] {
      RunGood(cfg, bytes, values, inputs[..|inputs| - 1]);
      NextGood(cfg, Run(cfg, Begin(bytes, values), inputs[..|inputs| - 1]).value, inputs[|inputs| - 1]);
    }
  }

  // ---------------------------------------------------------------- what a reported case means

  /** The case wrote the triggers in order with its own values, read the target once, stored that
      value and saw the store answered, and took one interrupt shortly after a source of its own. */
  predicate CaseFacts(cfg: Config, values: seq<bv32>, irq: IrqLog, data: DataLog) {
    && |values| == |cfg.triggers| && data.accepted == Expected(cfg, values)
    && |data.targetReads| == 1
    && data.results != [] && (forall k :: 0 <= k < |data.results| ==> data.results[k] == data.targetReads[0])
    && data.completed == |data.results|
    && |irq.takes| == 1
    && exists k :: 0 <= k < |irq.edges| && irq.from <= irq.edges[k] < irq.takes[0] <= irq.edges[k] + cfg.irqWidth
  }

  lemma ReportMeans(cfg: Config, w: World)
    requires Good(cfg, w) && Ends(w.state) && Passed(cfg, w.state)
    ensures CaseFacts(cfg, w.state.values, w.irq, w.data)
  {
    assert Sourced(w.irq.edges, cfg.irqWidth, w.irq.takes[0]);
    forall k | 0 <= k < |w.data.results| ensures w.data.results[k] == w.data.targetReads[0] {
      assert w.data.results[k] in w.data.targetReads;
    }
  }

  /** Every case reported by every run. */
  lemma EveryReportedCase(cfg: Config, bytes: seq<bv8>, values: seq<bv32>, inputs: seq<Input>, p: Pins)
    requires |values| == |cfg.triggers| && Run(cfg, Begin(bytes, values), inputs).Some?
    requires Reports(cfg, Run(cfg, Begin(bytes, values), inputs).value, p)
    ensures var body := LogBody(cfg, Run(cfg, Begin(bytes, values), inputs).value, p);
            CaseFacts(cfg, body.state.values, body.irq, body.data)
  {
    RunGood(cfg, bytes, values, inputs);
    var w := Run(cfg, Begin(bytes, values), inputs).value;
    BodyGood(cfg, w, p);
    ReportMeans(cfg, LogBody(cfg, w, p));
  }

  lemma TestsFollow(cfg: Config, w: World)
    requires Good(cfg, w) && Ends(w.state)
    ensures w.state.irq.takes == 1 ==> w.state.irq.sources >= 1
    ensures w.state.data.readCount == 1 ==>
              Fetch(cfg.ramBase, w.state.bytes, cfg.resultAddress) == Ok(w.state.data.result.value)
  {
    if w.state.irq.takes == 1 { assert Sourced(w.irq.edges, cfg.irqWidth, w.irq.takes[0]); }
    if w.state.data.readCount == 1 { assert w.data.results[|w.data.results| - 1] in w.data.targetReads; }
  }

  /** Two of the tests for a passed case follow from the rest, in every run: a taken interrupt had a
      source in the case, and the result in memory is the value read. */
  lemma RedundantTests(cfg: Config, bytes: seq<bv8>, values: seq<bv32>, inputs: seq<Input>, p: Pins)
    requires |values| == |cfg.triggers| && Run(cfg, Begin(bytes, values), inputs).Some?
    requires Body(cfg, Run(cfg, Begin(bytes, values), inputs).value.state, p).Some?
    ensures var s := Body(cfg, Run(cfg, Begin(bytes, values), inputs).value.state, p).value;
            && (Ends(s) && s.irq.takes == 1 ==> s.irq.sources >= 1)
            && (Ends(s) && s.data.readCount == 1 ==>
                  Fetch(cfg.ramBase, s.bytes, cfg.resultAddress) == Ok(s.data.result.value))
  {
    RunGood(cfg, bytes, values, inputs);
    var w := Run(cfg, Begin(bytes, values), inputs).value;
    BodyGood(cfg, w, p);
    var body := LogBody(cfg, w, p);
    if Ends(body.state) { TestsFollow(cfg, body); }
  }
}
