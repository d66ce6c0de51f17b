/** The AXI4 memory adapter's registers and its clock edge, at a data width of 64 bits.

    Transaction ids and sideband signals are left out: they never reach the control path. */
module Adapter {
  import opened LinkModel

  datatype State =
    | Idle | WriteCollect | WriteDrain
    | WriteRequest | WriteResponse | WriteAxiResponse
    | ReadRequest | ReadResponse | ReadAxiResponse
    | AtomicAxiResponse

  datatype Resp = Okay | SlvErr | DecErr

  /** The halves of a write already taken, and whether they make it one to refuse. */
  datatype Halves = Halves(aw: bool, w: bool, awBad: bool, wBad: bool)

  datatype WriteRegs = WriteRegs(addr: Address, data: bv64, be: bv8, resp: Resp, len: bv8, left: bv8)

  datatype ReadRegs = ReadRegs(addr: Address, data: bv64, be: bv8, resp: Resp, left: bv8, size: bv3, bad: bool)

  /** Refused atomics: whether one also owes R beats, and which responses are still to come. */
  datatype AtomicRegs = AtomicRegs(withRead: bool, compare: bool, r: bool, b: bool)

  datatype Regs = Regs(state: State, halves: Halves, write: WriteRegs, read: ReadRegs, atomic: AtomicRegs)

  const NoHalves := Halves(false, false, false, false)
  const NoAtomic := AtomicRegs(false, false, false, false)
  const InReset := Regs(Idle, NoHalves, WriteRegs(0, 0, 0, Okay, 0, 0), ReadRegs(0, 0, 0, Okay, 0, 0, false), NoAtomic)

  datatype AwPins = AwPins(valid: bool, addr: Address, len: bv8, size: bv3, burst: bv2, lock: bool, atop: bv6)

  datatype WPins = WPins(valid: bool, data: bv64, strb: bv8, last: bool)

  datatype ArPins = ArPins(valid: bool, addr: Address, len: bv8, size: bv3, burst: bv2, lock: bool)

  /** What the CPU shows on its five channels. */
  datatype Cpu = Cpu(aw: AwPins, w: WPins, bready: bool, ar: ArPins, rready: bool)

  /** What the host drives on the beat face. */
  datatype Face = Face(reqReady: bool, rspValid: bool, reply: Reply)

  // ---------------------------------------------------------------- outputs

  predicate InRequest(a: Regs) { a.state.WriteRequest? || a.state.ReadRequest? }

  predicate InResponse(a: Regs) { a.state.WriteResponse? || a.state.ReadResponse? }

  predicate InAxiResponse(a: Regs) { a.state.WriteAxiResponse? || a.state.ReadAxiResponse? }

  predicate BValid(a: Regs) { a.state.WriteAxiResponse? || (a.state.AtomicAxiResponse? && a.atomic.b) }

  predicate RValid(a: Regs) { a.state.ReadAxiResponse? || (a.state.AtomicAxiResponse? && a.atomic.r) }

  function RequestBeat(a: Regs): Beat {
    if a.state.WriteRequest? then Beat(true, a.write.addr, a.write.data, a.write.be)
    else if a.state.ReadRequest? then Beat(false, a.read.addr, 0, a.read.be)
    else NoBeat
  }

  function PinsOf(a: Regs, c: Cpu): Pins {
    Pins(InRequest(a), RequestBeat(a), InResponse(a), BValid(a) && c.bready, RValid(a) && c.rready)
  }

  // ---------------------------------------------------------------- the clock edge, out of reset

  /** The lanes a read of 2^size bytes covers; a size over the data width is refused elsewhere. */
  function ReadLanes(size: bv3, address: Address): bv8 {
    var lanes: bv8 := if size == 0 then 0x01 else if size == 1 then 0x03 else if size == 2 then 0x0f else 0xff;
    lanes << address % 8
  }

  /** The next beat of a burst; the size of an accepted one is at most 3. */
  function NextAddress(address: Address, size: bv3): Address {
    var stride := if size == 0 then 1 else if size == 1 then 2 else if size == 2 then 4 else 8;
    (address + stride) % 0x1_0000_0000_0000_0000
  }

  predicate AwBad(aw: AwPins) {
    aw.len != 0 || aw.size > 3 || (aw.burst != 0 && aw.burst != 1) || aw.lock || aw.atop != 0
  }

  predicate ArBad(ar: ArPins) {
    ar.len > 1 || (ar.len != 0 && ar.burst != 1) || ar.size > 3 || (ar.burst != 0 && ar.burst != 1) || ar.lock
  }

  predicate Collecting(a: Regs) { a.state.Idle? || a.state.WriteCollect? }

  predicate AwTake(a: Regs, c: Cpu) { c.aw.valid && Collecting(a) && !a.halves.aw }

  predicate WTake(a: Regs, c: Cpu) { c.w.valid && ((Collecting(a) && !a.halves.w) || a.state.WriteDrain?) }

  predicate ArTake(a: Regs, c: Cpu) { c.ar.valid && a.state.Idle? && !c.aw.valid && !c.w.valid }

  /** The write registers after the AW and W handshakes of this edge. */
  function Taken(a: Regs, c: Cpu): Regs {
    var aw, w := AwTake(a, c), WTake(a, c);
    a.(halves := Halves(a.halves.aw || aw, a.halves.w || w,
                        if aw then AwBad(c.aw) else a.halves.awBad, if w then !c.w.last else a.halves.wBad),
       write := a.write.(addr := if aw then c.aw.addr else a.write.addr,
                         len := if aw then c.aw.len else a.write.len,
                         data := if w then c.w.data else a.write.data,
                         be := if w then c.w.strb else a.write.be),
       atomic := if aw then a.atomic.(withRead := c.aw.atop & 0x20 != 0, compare := c.aw.atop == 0x31) else a.atomic)
  }

  /** A complete write that the adapter refuses without using the beat face. */
  function RefusedWrite(t: Regs): Regs {
    Regs(if t.write.len != 0 then WriteDrain else if t.atomic.withRead then AtomicAxiResponse else WriteAxiResponse,
         NoHalves,
         t.write.(resp := DecErr, left := if t.write.len != 0 then t.write.len else t.write.left),
         if !t.atomic.withRead then t.read
         else t.read.(data := 0, resp := DecErr, left := if t.atomic.compare then t.write.len >> 1 else t.write.len),
         if t.atomic.withRead then t.atomic.(r := true, b := true) else t.atomic)
  }

  function ReadTaken(a: Regs, ar: ArPins): Regs {
    a.(read := ReadRegs(ar.addr, 0, ReadLanes(ar.size, ar.addr), if ArBad(ar) then DecErr else a.read.resp,
                        ar.len, ar.size, ArBad(ar)),
       state := if ArBad(ar) then ReadAxiResponse else ReadRequest)
  }

  function CollectEdge(a: Regs, c: Cpu): Regs {
    var t := Taken(a, c);
    if t.halves.aw && t.halves.w then
      if a.halves.awBad || a.halves.wBad || t.halves.awBad || t.halves.wBad then RefusedWrite(t)
      else t.(halves := NoHalves, state := WriteRequest)
    else if AwTake(a, c) || WTake(a, c) then t.(state := WriteCollect)
    else if ArTake(a, c) then ReadTaken(a, c.ar)
    else a
  }

  function DrainEdge(a: Regs, c: Cpu): Regs {
    if !c.w.valid then a
    else if a.write.left != 1 then a.(write := a.write.(left := a.write.left - 1))
    else a.(write := a.write.(left := 0), state := if a.atomic.withRead then AtomicAxiResponse else WriteAxiResponse)
  }

  function RespOf(reply: Reply): Resp { if reply.error then SlvErr else Okay }

  function NextRead(r: ReadRegs): ReadRegs {
    if r.bad then r.(left := r.left - 1, data := 0, resp := DecErr)
    else
      var next := NextAddress(r.addr, r.size);
      r.(left := r.left - 1, addr := next, be := ReadLanes(r.size, next))
  }

  function ReadDone(a: Regs): Regs {
    if a.read.left == 0 then a.(read := a.read.(data := 0, resp := Okay, bad := false), state := Idle)
    else a.(read := NextRead(a.read), state := if a.read.bad then ReadAxiResponse else ReadRequest)
  }

  function AtomicEdge(a: Regs, c: Cpu): Regs {
    var rDone := !a.atomic.r || (c.rready && a.read.left == 0);
    var bDone := !a.atomic.b || c.bready;
    if rDone && bDone then
      Regs(Idle, a.halves, a.write.(resp := Okay), a.read.(resp := Okay), NoAtomic)
    else
      var down := a.atomic.r && c.rready && a.read.left != 0;
      a.(read := if down then a.read.(left := a.read.left - 1) else a.read,
         atomic := a.atomic.(r := a.atomic.r && !(c.rready && a.read.left == 0), b := a.atomic.b && !c.bready))
  }

  function Edge(a: Regs, c: Cpu, face: Face): Regs {
    match a.state
    case Idle => CollectEdge(a, c)
    case WriteCollect => CollectEdge(a, c)
    case WriteDrain => DrainEdge(a, c)
    case WriteRequest => if face.reqReady then a.(state := WriteResponse) else a
    case WriteResponse =>
      if face.rspValid then a.(write := a.write.(resp := RespOf(face.reply)), state := WriteAxiResponse) else a
    case WriteAxiResponse => if c.bready then a.(write := a.write.(resp := Okay), state := Idle) else a
    case ReadRequest => if face.reqReady then a.(state := ReadResponse) else a
    case ReadResponse =>
      if face.rspValid then
        a.(read := a.read.(data := face.reply.rdata, resp := RespOf(face.reply)), state := ReadAxiResponse)
      else a
    case ReadAxiResponse => if c.rready then ReadDone(a) else a
    case AtomicAxiResponse => AtomicEdge(a, c)
  }
}
