/** The host's AXI4-Lite service over one RAM. */
module AxiLiteService {
  import opened Wrappers
  import opened Ram

  datatype ReadSide = ReadSide(pending: bool, addr: nat, valid: bool, data: bv32)

  datatype WriteSide = WriteSide(awPending: bool, awAddr: nat, wPending: bool, wData: bv32, wStrb: bv8, bValid: bool)

  datatype State = State(read: ReadSide, write: WriteSide, bytes: seq<bv8>, readCount: nat, writeCount: nat)

  datatype Pins = Pins(reset: bool, arvalid: bool, araddr: nat, rready: bool,
                       awvalid: bool, awaddr: nat, wvalid: bool, wdata: bv32, wstrb: bv8, bready: bool)

  function Start(bytes: seq<bv8>): State {
    State(ReadSide(false, 0, false, 0), WriteSide(false, 0, false, 0, 0, false), bytes, 0, 0)
  }

  // ---------------------------------------------------------------- one tick

  predicate ArReady(s: State, p: Pins) { !p.reset && !s.read.pending && !s.read.valid }

  /** AWREADY and WREADY are one signal. */
  predicate WriteReady(s: State, p: Pins) { !p.reset && !(s.write.bValid || s.write.awPending || s.write.wPending) }

  function DriveRead(base: nat, s: State, p: Pins): Result<State> {
    var take := ArReady(s, p) && p.arvalid;
    var word := if s.read.pending then Fetch(base, s.bytes, s.read.addr) else Ok(s.read.data);
    if word.Err? then Err
    else Ok(s.(read := ReadSide(take, if take then p.araddr else s.read.addr,
                                s.read.valid || s.read.pending, word.value),
               readCount := s.readCount + if s.read.pending then 1 else 0))
  }

  function Taken(w: WriteSide, ready: bool, p: Pins): WriteSide {
    w.(awPending := w.awPending || (ready && p.awvalid), awAddr := if ready && p.awvalid then p.awaddr else w.awAddr,
       wPending := w.wPending || (ready && p.wvalid), wData := if ready && p.wvalid then p.wdata else w.wData,
       wStrb := if ready && p.wvalid then p.wstrb else w.wStrb)
  }

  function DriveWrite(base: nat, s: State, ready: bool, p: Pins): Result<State> {
    var w := Taken(s.write, ready, p);
    if !(w.awPending && w.wPending && !w.bValid) then Ok(s.(write := w))
    else
      var stored := StoreWord(base, s.bytes, w.awAddr, w.wData, w.wStrb);
      if stored.Err? then Err
      else Ok(s.(write := w.(awPending := false, wPending := false, bValid := true), bytes := stored.value,
                 writeCount := s.writeCount + 1))
  }

  function Drive(base: nat, s: State, p: Pins): Result<State> {
    var r := DriveRead(base, s, p);
    if r.Ok? then DriveWrite(base, r.value, WriteReady(s, p), p) else Err
  }

  /** After the edge: a response whose READY was seen is over. */
  function Settle(s: State, p: Pins): State {
    s.(read := s.read.(valid := s.read.valid && !p.rready), write := s.write.(bValid := s.write.bValid && !p.bready))
  }

  function Tick(base: nat, s: State, p: Pins): Result<State> {
    var driven := Drive(base, s, p);
    if driven.Ok? then Ok(Settle(driven.value, p)) else Err
  }

  predicate IsRun(base: nat, states: seq<State>, pins: seq<Pins>) {
    && |states| == |pins| + 1
    && states[0] == Start(states[0].bytes)
    && forall t :: 0 <= t < |pins| ==> Tick(base, states[t], pins[t]) == Ok(states[t + 1])
  }

  // ---------------------------------------------------------------- reads

  /** The AR handshake of a tick. */
  predicate ArTake(s: State, p: Pins) { ArReady(s, p) && p.arvalid }

  /** RVALID as driven in a tick from this boundary. */
  predicate RValid(s: State) { s.read.pending || s.read.valid }

  /** RDATA as driven in a tick from this boundary. */
  function RData(base: nat, s: State): Result<bv32> {
    if s.read.pending then Fetch(base, s.bytes, s.read.addr) else Ok(s.read.data)
  }

  /** A read is answered in the tick after its address, with the RAM as that address found it, and
      the answer stays as it is until RREADY; nothing else raises RVALID. */
  lemma ReadAnswer(base: nat, s: State, p: Pins, t: State)
    requires Tick(base, s, p) == Ok(t)
    ensures RValid(t) <==> ArTake(s, p) || (RValid(s) && !p.rready)
    ensures ArTake(s, p) ==> !RValid(s) && RData(base, t) == Fetch(base, t.bytes, p.araddr)
    ensures RValid(s) ==> RData(base, s).Ok? && (!p.rready ==> RData(base, t) == RData(base, s))
    ensures t.readCount == s.readCount + if s.read.pending then 1 else 0
    ensures t.read.pending == ArTake(s, p)
  {
  }

  function Count(b: bool): nat { if b then 1 else 0 }

  function ArTakes(states: seq<State>, pins: seq<Pins>, t: nat): nat
    requires t <= |pins| && |states| == |pins| + 1
  {
    if t == 0 then 0 else ArTakes(states, pins, t - 1) + Count(ArTake(states[t - 1], pins[t - 1]))
  }

  function RTakes(states: seq<State>, pins: seq<Pins>, t: nat): nat
    requires t <= |pins| && |states| == |pins| + 1
  {
    if t == 0 then 0 else RTakes(states, pins, t - 1) + Count(RValid(states[t - 1]) && pins[t - 1].rready)
  }

  /** Every accepted address has one R handshake or is the one still waiting for it. */
  lemma {:induction false} ReadsBalance(base: nat, states: seq<State>, pins: seq<Pins>, t: nat)
    requires IsRun(base, states, pins) && t <= |pins|
    ensures ArTakes(states, pins, t) == RTakes(states, pins, t) + Count(RValid(states[t]))
    ensures ArTakes(states, pins, t) == states[t].readCount + Count(states[t].read.pending)
  {
    if t > 0 {
      ReadsBalance(base, states, pins, t - 1);
      ReadAnswer(base, states[t - 1], pins[t - 1], states[t]);
    }
  }

  // ---------------------------------------------------------------- writes

  /** Only one of the address and the data of a write is held. */
  predicate HalfHeld(s: State) { s.write.awPending != s.write.wPending }

  predicate WritesOk(s: State) {
    !(s.write.awPending && s.write.wPending) && (s.write.awPending || s.write.wPending ==> !s.write.bValid)
  }

  /** Both channels handshake in this tick. */
  predicate PairTake(s: State, p: Pins) { WriteReady(s, p) && p.awvalid && p.wvalid }

  /** One channel handshakes without the other. */
  predicate HalfTake(s: State, p: Pins) { WriteReady(s, p) && p.awvalid != p.wvalid }

  /** BVALID as driven in a tick. */
  predicate BValid(s: State, p: Pins) { s.write.bValid || PairTake(s, p) }

  /** Exactly the pairs that handshake together are stored, in that very tick, and BVALID rises in
      it too; a half handshake stores nothing and is held for ever. */
  lemma WriteStep(base: nat, s: State, p: Pins, t: State)
    requires WritesOk(s) && Tick(base, s, p) == Ok(t)
    ensures WritesOk(t)
    ensures if PairTake(s, p) then StoreWord(base, s.bytes, p.awaddr, p.wdata, p.wstrb) == Ok(t.bytes)
            else t.bytes == s.bytes
    ensures t.writeCount == s.writeCount + Count(PairTake(s, p))
    ensures t.write.bValid <==> BValid(s, p) && !p.bready
    ensures HalfHeld(t) <==> HalfHeld(s) || HalfTake(s, p)
    ensures HalfHeld(s) ==> !WriteReady(s, p) && !BValid(s, p)
  {
  }

  lemma {:induction false} WritesOkThroughout(base: nat, states: seq<State>, pins: seq<Pins>, t: nat)
    requires IsRun(base, states, pins) && t <= |pins|
    ensures WritesOk(states[t])
  {
    if t > 0 {
      WritesOkThroughout(base, states, pins, t - 1);
      WriteStep(base, states[t - 1], pins[t - 1], states[t]);
    }
  }

  /** The service holds half a write exactly when some earlier tick took one channel alone. */
  lemma {:induction false} HalfHeldIff(base: nat, states: seq<State>, pins: seq<Pins>, t: nat)
    requires IsRun(base, states, pins) && t <= |pins|
    ensures HalfHeld(states[t]) <==> exists u :: 0 <= u < t && HalfTake(states[u], pins[u])
  {
    if t > 0 {
      HalfHeldIff(base, states, pins, t - 1);
      WritesOkThroughout(base, states, pins, t - 1);
      WriteStep(base, states[t - 1], pins[t - 1], states[t]);
    }
  }

  /** From then on no channel is ready again, no byte changes and no BVALID comes. */
  lemma {:induction false} HalfHeldForever(base: nat, states: seq<State>, pins: seq<Pins>, t: nat, u: nat)
    requires IsRun(base, states, pins) && t <= u <= |pins| && HalfHeld(states[t])
    ensures HalfHeld(states[u]) && states[u].bytes == states[t].bytes && states[u].writeCount == states[t].writeCount
    ensures u < |pins| ==> !WriteReady(states[u], pins[u]) && !BValid(states[u], pins[u])
    decreases u
  {
    WritesOkThroughout(base, states, pins, u);
    if u < |pins| { assert Tick(base, states[u], pins[u]) == Ok(states[u + 1]); }
    if u > t {
      HalfHeldForever(base, states, pins, t, u - 1);
      WritesOkThroughout(base, states, pins, u - 1);
      WriteStep(base, states[u - 1], pins[u - 1], states[u]);
    }
  }

  function PairTakes(states: seq<State>, pins: seq<Pins>, t: nat): nat
    requires t <= |pins| && |states| == |pins| + 1
  {
    if t == 0 then 0 else PairTakes(states, pins, t - 1) + Count(PairTake(states[t - 1], pins[t - 1]))
  }

  function BTakes(states: seq<State>, pins: seq<Pins>, t: nat): nat
    requires t <= |pins| && |states| == |pins| + 1
  {
    if t == 0 then 0 else BTakes(states, pins, t - 1) + Count(BValid(states[t - 1], pins[t - 1]) && pins[t - 1].bready)
  }

  /** Every pair taken is one store and one B handshake, or the one whose response still waits. */
  lemma {:induction false} WritesBalance(base: nat, states: seq<State>, pins: seq<Pins>, t: nat)
    requires IsRun(base, states, pins) && t <= |pins|
    ensures PairTakes(states, pins, t) == states[t].writeCount
    ensures PairTakes(states, pins, t) == BTakes(states, pins, t) + Count(states[t].write.bValid)
  {
    if t > 0 {
      WritesBalance(base, states, pins, t - 1);
      WritesOkThroughout(base, states, pins, t - 1);
      WriteStep(base, states[t - 1], pins[t - 1], states[t]);
    }
  }

  /** A master that always shows address and data together never loses a write: both channels are
      ready whenever no response is owed. */
  lemma PairsNeverStick(base: nat, states: seq<State>, pins: seq<Pins>, t: nat)
    requires IsRun(base, states, pins) && t < |pins| && forall u :: 0 <= u < t ==> pins[u].awvalid == pins[u].wvalid
    ensures !HalfHeld(states[t])
    ensures WriteReady(states[t], pins[t]) <==> !pins[t].reset && !states[t].write.bValid
  {
    HalfHeldIff(base, states, pins, t);
    WritesOkThroughout(base, states, pins, t);
  }

  // ---------------------------------------------------------------- the bench

  class Bench {
    const mem: Memory
    var read: ReadSide
    var write: WriteSide
    var readCount: nat
    var writeCount: nat

    ghost function Value(): State
      reads this, mem.data
    {
      State(read, write, mem.data[..], readCount, writeCount)
    }

    constructor (mem: Memory)
      ensures this.mem == mem && Value() == Start(mem.data[..])
    {
      this.mem := mem;
      read, write := ReadSide(false, 0, false, 0), WriteSide(false, 0, false, 0, 0, false);
      readCount, writeCount := 0, 0;
    }

    method ServeRead(p: Pins) returns (ok: bool)
      modifies this
      ensures ok == DriveRead(mem.base, old(Value()), p).Ok?
      ensures ok ==> DriveRead(mem.base, old(Value()), p) == Ok(Value())
    {
      var ready := !p.reset && !read.pending && !read.valid;
      if read.pending {
        var word := mem.Read(read.addr);
        if word.Err? { return false; }
        read := read.(data := word.value, valid := true, pending := false);
        readCount := readCount + 1;
      }
      if ready && p.arvalid { read := read.(addr := p.araddr, pending := true); }
      ok := true;
    }

    method ServeWrite(ready: bool, p: Pins) returns (ok: bool)
      modifies this, mem.data
      ensures ok == DriveWrite(mem.base, old(Value()), ready, p).Ok?
      ensures ok ==> DriveWrite(mem.base, old(Value()), ready, p) == Ok(Value())
    {
      ok := true;
      if ready && p.awvalid { write := write.(awAddr := p.awaddr, awPending := true); }
      if ready && p.wvalid { write := write.(wData := p.wdata, wStrb := p.wstrb, wPending := true); }
      if write.awPending && write.wPending && !write.bValid {
        ok := mem.Write(write.awAddr, write.wData, write.wStrb);
        write := write.(awPending := false, wPending := false, bValid := true);
        writeCount := writeCount + 1;
      }
    }

    method Step(p: Pins) returns (ok: bool)
      modifies this, mem.data
      ensures ok == Tick(mem.base, old(Value()), p).Ok?
      ensures ok ==> Tick(mem.base, old(Value()), p) == Ok(Value())
    {
      var busy := write.bValid || write.awPending || write.wPending;
      ok := ServeRead(p);
      if !ok { return; }
      ok := ServeWrite(!p.reset && !busy, p);
      if !ok { return; }
      if read.valid && p.rready { read := read.(valid := false); }
      if write.bValid && p.bready { write := write.(bValid := false); }
    }
  }
}
