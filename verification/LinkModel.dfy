/** The host side of the AXI4 adapter's beat face: five flags around one rising edge.

    The functions below are the flag and counter updates of the link's methods; what the
    Verilated models show on their pins in the low phase of a tick is an input. */
module LinkModel {
  import opened Wrappers

  /** A 64-bit address, as a number: the bytes of a RAM are counted from it. */
  type Address = a: nat | a < 0x1_0000_0000_0000_0000

  datatype Beat = Beat(write: bool, address: Address, wdata: bv64, be: bv8)

  const NoBeat := Beat(false, 0, 0, 0)

  datatype Reply = Reply(rdata: bv64, error: bool)

  const NoReply := Reply(0, false)

  /** What the low phase shows: the adapter's request, its readiness for an answer, and whether
      a B or R handshake with the CPU is on. */
  datatype Pins = Pins(reqValid: bool, beat: Beat, rspReady: bool, bDone: bool, rDone: bool)

  datatype Traffic = Traffic(requests: nat, readBeats: nat, writeBeats: nat, responses: nat, errors: nat,
                             fullStrobe: nat, partialStrobe: nat)

  const NoTraffic := Traffic(0, 0, 0, 0, 0, 0, 0)

  /** The part of the sampled observation that the rising edge acts on. */
  datatype Observation = Observation(beatRequest: bool, beatResponse: bool, axiDone: bool)

  const NoObservation := Observation(false, false, false)

  datatype Link = Link(
    request: Beat,
    handshaked: bool,       // sampled on this low phase, edge still to come
    waiting: bool,          // captured, no answer given yet
    answered: bool,         // answer given in the capture low phase
    answer: Reply,
    responsePhase: bool,    // answer consumed, B or R still owed to the CPU
    pending: bool,          // answer driven on the response face
    pendingWrite: bool,
    driven: Reply,
    seen: Observation,
    traffic: Traffic,
    ticks: nat)

  const Fresh := Link(NoBeat, false, false, false, NoReply, false, false, false, NoReply, NoObservation, NoTraffic, 0)

  // ---------------------------------------------------------------- pins the link drives

  predicate ReqReady(l: Link) { l.handshaked || !(l.waiting || l.pending) }

  predicate RspValid(l: Link) { l.pending }

  // ---------------------------------------------------------------- methods

  function Answered(l: Link, reply: Reply): Link {
    if !l.waiting then l
    else if l.handshaked then l.(waiting := false, answered := true, answer := reply)
    else l.(waiting := false, pending := true, pendingWrite := l.request.write, driven := reply)
  }

  function Counted(t: Traffic, beat: Beat): Traffic {
    var t := t.(requests := t.requests + 1);
    if !beat.write then t.(readBeats := t.readBeats + 1)
    else if beat.be == 0xff then t.(writeBeats := t.writeBeats + 1, fullStrobe := t.fullStrobe + 1)
    else t.(writeBeats := t.writeBeats + 1, partialStrobe := t.partialStrobe + 1)
  }

  function Settled(t: Traffic, reply: Reply): Traffic {
    t.(responses := t.responses + 1, errors := t.errors + if reply.error then 1 else 0)
  }

  function Captured(l: Link, beat: Beat): Link {
    l.(request := beat, handshaked := true, waiting := true, traffic := Counted(l.traffic, beat))
  }

  /** Low phase: settle, sample, capture at most one beat, let an installed service answer it. */
  function BeginTick(l: Link, pins: Pins, service: Option<Reply>): Link {
    var seen := Observation(pins.reqValid && ReqReady(l), l.pending && pins.rspReady, pins.bDone || pins.rDone);
    var l := l.(seen := seen);
    if !seen.beatRequest then l
    else
      var l := Captured(l, pins.beat);
      if service.Some? then Answered(l, service.value) else l
  }

  /** The accepting edge: an answer kept back so far is now driven. */
  function Committed(l: Link): Link {
    if !l.answered then l.(handshaked := false)
    else l.(handshaked := false, pending := true, pendingWrite := l.request.write, driven := l.answer,
            answered := false, answer := NoReply)
  }

  /** The edge that consumes the driven answer. */
  function Consumed(l: Link): Link {
    l.(responsePhase := true, pending := false, pendingWrite := false, driven := NoReply,
       traffic := Settled(l.traffic, l.driven))
  }

  /** The rising edge, seen from the host. */
  function EndTick(l: Link): Link {
    var l := l.(ticks := l.ticks + 1);
    var l := if l.handshaked then Committed(l) else if l.seen.beatResponse then Consumed(l) else l;
    if l.seen.axiDone then l.(responsePhase := false) else l
  }

  function SetReset(l: Link, level: bool): Link {
    if !level then l
    else l.(request := NoBeat, handshaked := false, waiting := false, answered := false, answer := NoReply,
            responsePhase := false, pending := false, pendingWrite := false, driven := NoReply)
  }

  function Forget(l: Link): Link {
    l.(responsePhase := false, traffic := NoTraffic, seen := NoObservation)
  }

  // ---------------------------------------------------------------- the class

  /** The link as an object whose fields the host's calls update. */
  class CpuLink {
    var request: Beat
    var handshaked: bool
    var waiting: bool
    var answered: bool
    var answer: Reply
    var responsePhase: bool
    var pending: bool
    var pendingWrite: bool
    var driven: Reply
    var seen: Observation
    var traffic: Traffic
    var ticks: nat

    function State(): Link
      reads this
    {
      Link(request, handshaked, waiting, answered, answer, responsePhase, pending, pendingWrite, driven,
           seen, traffic, ticks)
    }

    constructor ()
      ensures State() == Fresh
    {
      request, handshaked, waiting, answered, answer := NoBeat, false, false, false, NoReply;
      responsePhase, pending, pendingWrite, driven := false, false, false, NoReply;
      seen, traffic, ticks := NoObservation, NoTraffic, 0;
    }

    method BeatResponse(reply: Reply)
      modifies this
      ensures State() == Answered(old(State()), reply)
    {
      if !waiting { return; }
      waiting := false;
      if handshaked {
        answered := true;
        answer := reply;
        return;
      }
      pending := true;
      pendingWrite := request.write;
      driven := reply;
    }

    method Capture(beat: Beat)
      modifies this
      ensures State() == Captured(old(State()), beat)
    {
      request := beat;
      handshaked := true;
      waiting := true;
      traffic := Counted(traffic, request);
    }

    method Begin(pins: Pins, service: Option<Reply>)
      modifies this
      ensures State() == BeginTick(old(State()), pins, service)
    {
      var ready := if handshaked then true else if waiting || pending then false else true;
      seen := Observation(pins.reqValid && ready, pending && pins.rspReady, pins.bDone || pins.rDone);
      if !seen.beatRequest { return; }
      Capture(pins.beat);
      if service.Some? { BeatResponse(service.value); }
    }

    method Commit()
      modifies this
      ensures State() == Committed(old(State()))
    {
      handshaked := false;
      if answered {
        pending, pendingWrite, driven := true, request.write, answer;
        answered, answer := false, NoReply;
      }
    }

    method Consume()
      modifies this
      ensures State() == Consumed(old(State()))
    {
      traffic := Settled(traffic, driven);
      responsePhase := true;
      pending, pendingWrite, driven := false, false, NoReply;
    }

    method End()
      modifies this
      ensures State() == EndTick(old(State()))
    {
      ticks := ticks + 1;
      if handshaked {
        Commit();
      } else if seen.beatResponse {
        Consume();
      }
      if seen.axiDone { responsePhase := false; }
    }

    method Reset(level: bool)
      modifies this
      ensures State() == SetReset(old(State()), level)
    {
      if level {
        request := NoBeat;
        handshaked, waiting, answered, answer := false, false, false, NoReply;
        responsePhase, pending, pendingWrite, driven := false, false, false, NoReply;
      }
    }

    method ForgetCounts()
      modifies this
      ensures State() == Forget(old(State()))
    {
      responsePhase := false;
      traffic := NoTraffic;
      seen := NoObservation;
    }
  }
}
