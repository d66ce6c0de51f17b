/** The link and the adapter together, one low phase and one rising edge at a time. */
module LinkSystem {
  import opened Wrappers
  import opened LinkModel
  import opened LinkHistory
  import opened Adapter

  /** What crossed the beat face and what the CPU got back since the last reset, as each side saw it. */
  datatype Ledger = Ledger(
    captured: seq<Beat>,       // by the link, in a low phase
    consumed: seq<Sent>,       // by the link's account of its edges
    accepted: seq<Beat>,       // by the adapter's edges
    latched: seq<Sent>,        // by the adapter's edges
    returned: seq<Returned>)   // B and R handshakes of accepted transactions

  datatype Returned = WriteDone(resp: Resp) | ReadData(data: bv64, resp: Resp)

  const Blank := Ledger([], [], [], [], [])

  datatype System = System(
    link: Link, adapter: Regs,
    face: Face,          // as last driven on the adapter
    cpu: Cpu,            // as last settled
    reset: bool,         // the level driven on the adapter
    clocked: bool,       // an edge has seen that level
    inTick: bool,
    ledger: Ledger)

  datatype Move =
    | Low(cpu: Cpu, service: Option<Reply>)    // begin_tick
    | GiveAnswer(reply: Reply)                 // beat_response
    | Drive                                    // drive or settle called by the caller
    | DropReady                                // what the link must not do: take req_ready back after a capture
    | Rise                                     // end_tick
    | Level(reset: bool)                       // set_reset
    | Clear                                    // forget

  function FaceOf(l: Link): Face { Face(ReqReady(l), RspValid(l), l.driven) }

  function ReturnedBy(a: Regs, c: Cpu): seq<Returned> {
    if a.state.WriteAxiResponse? && c.bready && !a.write.resp.DecErr? then [WriteDone(a.write.resp)]
    else if a.state.ReadAxiResponse? && c.rready && !a.read.bad then [ReadData(a.read.data, a.read.resp)]
    else []
  }

  function AdapterLedger(g: Ledger, a: Regs, c: Cpu, face: Face): Ledger {
    g.(accepted := g.accepted + if InRequest(a) && face.reqReady then [RequestBeat(a)] else [],
       latched := g.latched + if InResponse(a) && face.rspValid then [Sent(a.state.WriteResponse?, face.reply)] else [],
       returned := g.returned + ReturnedBy(a, c))
  }

  function LinkLedger(g: Ledger, l: Link): Ledger {
    if !l.handshaked && l.seen.beatResponse then g.(consumed := g.consumed + [Sent(l.pendingWrite, l.driven)]) else g
  }

  function LowPhase(s: System, cpu: Cpu, service: Option<Reply>): System {
    var pins := PinsOf(s.adapter, cpu);
    var link := BeginTick(s.link, pins, service);
    s.(link := link, face := FaceOf(s.link), cpu := cpu, inTick := true,
       ledger := if link.seen.beatRequest then s.ledger.(captured := s.ledger.captured + [pins.beat]) else s.ledger)
  }

  function RisingEdge(s: System): System {
    var link := EndTick(s.link);
    var ledger := LinkLedger(s.ledger, s.link);
    s.(link := link, face := FaceOf(link), inTick := false, clocked := true,
       adapter := if s.reset then InReset else Edge(s.adapter, s.cpu, s.face),
       ledger := if s.reset then ledger else AdapterLedger(ledger, s.adapter, s.cpu, s.face))
  }

  function Go(s: System, m: Move): System {
    match m
    case Low(cpu, service) => LowPhase(s, cpu, service)
    case GiveAnswer(reply) => s.(link := Answered(s.link, reply))
    case Drive => s.(face := FaceOf(s.link))
    case DropReady => s.(face := s.face.(reqReady := s.face.reqReady && !s.link.handshaked))
    case Rise => RisingEdge(s)
    case Level(reset) =>
      var s := s.(link := SetReset(s.link, reset), reset := reset, clocked := false);
      if reset then s.(ledger := Blank) else s
    case Clear => s.(link := Forget(s.link))
  }

  /** What a caller has to respect.  Besides the order of calls: reset goes up only while the adapter
      requests nothing and down only after an edge has seen it, and the pins are not driven again in
      a low phase once a late answer has been given in it. */
  predicate Allowed(s: System, m: Move) {
    match m
    case Low(_, _) => !s.inTick
    case GiveAnswer(_) => true
    case Drive => s.inTick ==> s.link.pending == s.face.rspValid
    case DropReady => false
    case Rise => s.inTick
    case Level(reset) => !s.inTick && (if reset then !InRequest(s.adapter) else s.reset ==> s.clocked)
    case Clear => !s.inTick
  }

  function PowerOn(cpu: Cpu): System {
    System(Fresh, InReset, FaceOf(Fresh), cpu, true, false, false, Blank)
  }

  function Reach(cpu: Cpu, moves: seq<Move>): System {
    if moves == [] then PowerOn(cpu) else Go(Reach(cpu, moves[..|moves| - 1]), moves[|moves| - 1])
  }

  predicate AllAllowed(cpu: Cpu, moves: seq<Move>) {
    moves != [] ==>
      AllAllowed(cpu, moves[..|moves| - 1]) && Allowed(Reach(cpu, moves[..|moves| - 1]), moves[|moves| - 1])
  }

  // ---------------------------------------------------------------- the two sides agree

  /** Between ticks the link holds a beat exactly when the adapter waits for its answer. */
  predicate AgreeBetween(l: Link, a: Regs) {
    && !l.handshaked && !l.answered && !(l.waiting && l.pending)
    && (l.waiting || l.pending <==> InResponse(a))
    && (l.waiting || l.pending ==> l.request.write == a.state.WriteResponse?)
    && (l.pending ==> l.pendingWrite == l.request.write)
    && (l.responsePhase ==> InAxiResponse(a))
  }

  /** In a low phase the link has captured exactly what the adapter requests; req_ready is then
      still high and rsp_valid low, and otherwise the edge takes exactly what the link sampled. */
  predicate AgreeInTick(l: Link, a: Regs, face: Face, c: Cpu) {
    && (l.handshaked <==> InRequest(a))
    && (l.handshaked ==> l.request == RequestBeat(a) && face.reqReady && !face.rspValid && l.waiting != l.answered
                         && !l.pending)
    && (!l.handshaked ==>
          AgreeBetween(l, a) && (face.rspValid ==> l.pending && face.reply == l.driven))
    && l.seen.beatResponse == face.rspValid
    && l.seen.axiDone == ((BValid(a) && c.bready) || (RValid(a) && c.rready))
    && (l.responsePhase ==> InAxiResponse(a))
  }

  predicate Agree(s: System) {
    if s.inTick then AgreeInTick(s.link, s.adapter, s.face, s.cpu) else AgreeBetween(s.link, s.adapter)
  }

  /** In reset the link is empty and nothing can be captured. */
  predicate Quiet(s: System) {
    && !Outstanding(s.link) && !s.link.answered && !InRequest(s.adapter)
    && (s.inTick ==> !s.link.seen.beatResponse)
    && !s.link.responsePhase
    && (s.clocked ==> s.adapter == InReset)
  }

  /** What the CPU is owed or has got for an answer. */
  function ReturnFor(sent: Sent): Returned {
    if sent.write then WriteDone(RespOf(sent.reply)) else ReadData(sent.reply.rdata, RespOf(sent.reply))
  }

  /** The last latched answer is still to be returned. */
  predicate Owes(a: Regs) {
    (a.state.WriteAxiResponse? && !a.write.resp.DecErr?) || (a.state.ReadAxiResponse? && !a.read.bad)
  }

  predicate Returns(g: Ledger, a: Regs) {
    && |g.latched| == |g.returned| + Held(Owes(a))
    && (forall k :: 0 <= k < |g.returned| ==> g.returned[k] == ReturnFor(g.latched[k]))
    && (Owes(a) ==> ReturnFor(g.latched[|g.latched| - 1]) ==
                    if a.state.WriteAxiResponse? then WriteDone(a.write.resp) else ReadData(a.read.data, a.read.resp))
  }

  predicate Books(s: System) {
    && s.ledger.captured == s.ledger.accepted + (if s.inTick && s.link.handshaked then [s.link.request] else [])
    && s.ledger.consumed == s.ledger.latched
    && Returns(s.ledger, s.adapter)
  }

  /** Registers that only mean something in some states. */
  predicate RegsOk(a: Regs) {
    && (a.state.ReadRequest? || a.state.ReadResponse? ==> !a.read.bad)
    && (a.state.WriteDrain? ==> a.write.resp.DecErr?)
  }

  predicate Synced(s: System) {
    if s.reset then Quiet(s) && s.ledger == Blank else Agree(s) && Books(s) && RegsOk(s.adapter)
  }
}
