/** The host's OBI service: an instruction and a data channel over one RAM, one tick at a time. */
module ObiService {
  import opened Wrappers
  import opened Ram

  datatype Channel = Channel(pending: bool, deliver: bool, address: nat, rdata: bv32)

  datatype State = State(i: Channel, d: Channel, bytes: seq<bv8>, readCount: nat, writeCount: nat)

  /** What the model shows in one tick, with the reset level and the injected fault pulse. */
  datatype Pins = Pins(reset: bool, fault: bool, ireq: bool, iaddr: nat,
                       dreq: bool, daddr: nat, dwe: bool, dwdata: bv32, dbe: bv8)

  const Empty := Channel(false, false, 0, 0)

  function Start(bytes: seq<bv8>): State { State(Empty, Empty, bytes, 0, 0) }

  // ---------------------------------------------------------------- pins the host drives

  predicate IGrant(s: State, p: Pins) { !p.reset && p.ireq && !s.i.pending && !s.i.deliver }

  predicate DGrant(s: State, p: Pins) { !p.reset && p.dreq && !s.d.pending && !s.d.deliver }

  predicate IValid(s: State) { s.i.deliver }

  predicate DValid(s: State, p: Pins) { s.d.deliver || p.fault }

  // ---------------------------------------------------------------- one tick

  function Drive(base: nat, s: State, p: Pins): Result<State> {
    var s := if !IGrant(s, p) then s
             else s.(i := s.i.(pending := true, address := p.iaddr), readCount := s.readCount + 1);
    if !DGrant(s, p) then Ok(s)
    else
      var s := s.(d := s.d.(pending := true, address := p.daddr));
      if !p.dwe then Ok(s.(readCount := s.readCount + 1))
      else
        var stored := StoreWord(base, s.bytes, p.daddr, p.dwdata, p.dbe);
        if stored.Ok? then Ok(s.(bytes := stored.value, writeCount := s.writeCount + 1)) else Err
  }

  function SettleChannel(base: nat, bytes: seq<bv8>, c: Channel): Result<Channel> {
    if c.deliver then Ok(c.(deliver := false, pending := false))
    else if !c.pending then Ok(c)
    else
      var word := Fetch(base, bytes, c.address);
      if word.Ok? then Ok(c.(rdata := word.value, deliver := true)) else Err
  }

  function Settle(base: nat, s: State): Result<State> {
    var i, d := SettleChannel(base, s.bytes, s.i), SettleChannel(base, s.bytes, s.d);
    if i.Ok? && d.Ok? then Ok(s.(i := i.value, d := d.value)) else Err
  }

  function Tick(base: nat, s: State, p: Pins): Result<State> {
    var driven := Drive(base, s, p);
    if driven.Ok? then Settle(base, driven.value) else Err
  }

  // ---------------------------------------------------------------- whole runs

  /** Tick boundaries of a run; a run that leaves the RAM's bounds ends there. */
  predicate IsRun(base: nat, states: seq<State>, pins: seq<Pins>) {
    && |states| == |pins| + 1
    && states[0] == Start(states[0].bytes)
    && forall t :: 0 <= t < |pins| ==> Tick(base, states[t], pins[t]) == Ok(states[t + 1])
  }

  /** At a boundary a channel is pending exactly when it delivers in the coming tick. */
  predicate Even(s: State) { s.i.pending == s.i.deliver && s.d.pending == s.d.deliver }

  /** What one tick does from an even state: a granted channel, and no other, delivers next, with
      what the RAM holds after this tick's store. */
  predicate TickDoes(base: nat, s: State, p: Pins, t: State) {
    && (IValid(t) <==> IGrant(s, p)) && (t.d.deliver <==> DGrant(s, p))
    && (IGrant(s, p) ==> Fetch(base, t.bytes, p.iaddr) == Ok(t.i.rdata))
    && (DGrant(s, p) ==> Fetch(base, t.bytes, p.daddr) == Ok(t.d.rdata))
    && (if DGrant(s, p) && p.dwe then StoreWord(base, s.bytes, p.daddr, p.dwdata, p.dbe) == Ok(t.bytes)
        else t.bytes == s.bytes)
    && t.writeCount == s.writeCount + (if DGrant(s, p) && p.dwe then 1 else 0)
    && t.readCount == s.readCount + (if IGrant(s, p) then 1 else 0) + (if DGrant(s, p) && !p.dwe then 1 else 0)
  }

  /** A tick fails exactly when a granted access is out of bounds. */
  lemma TickIs(base: nat, s: State, p: Pins)
    requires Even(s)
    ensures var r := Tick(base, s, p);
            && (r.Ok? <==> (IGrant(s, p) ==> InBounds(base, |s.bytes|, p.iaddr))
                           && (DGrant(s, p) ==> InBounds(base, |s.bytes|, p.daddr)))
            && (r.Ok? ==> Even(r.value) && TickDoes(base, s, p, r.value))
  {
  }

  lemma {:induction false} EvenThroughout(base: nat, states: seq<State>, pins: seq<Pins>, t: nat)
    requires IsRun(base, states, pins) && t <= |pins|
    ensures Even(states[t])
  {
    if t > 0 {
      EvenThroughout(base, states, pins, t - 1);
      TickIs(base, states[t - 1], pins[t - 1]);
    }
  }

  /** In every run a response at t + 1 answers a grant at t, a grant is never followed by another
      one in the next tick, and a fault pulse is the only other data response. */
  lemma ResponseIffGrant(base: nat, states: seq<State>, pins: seq<Pins>, t: nat)
    requires IsRun(base, states, pins) && t + 1 < |pins|
    ensures IValid(states[t + 1]) <==> IGrant(states[t], pins[t])
    ensures DValid(states[t + 1], pins[t + 1]) <==> DGrant(states[t], pins[t]) || pins[t + 1].fault
    ensures IGrant(states[t], pins[t]) ==> !IGrant(states[t + 1], pins[t + 1])
    ensures DGrant(states[t], pins[t]) ==> !DGrant(states[t + 1], pins[t + 1])
    ensures TickDoes(base, states[t], pins[t], states[t + 1])
  {
    EvenThroughout(base, states, pins, t);
    TickIs(base, states[t], pins[t]);
  }

  // ---------------------------------------------------------------- the bench

  class Bench {
    const mem: Memory
    var i: Channel
    var d: Channel
    var readCount: nat
    var writeCount: nat

    ghost function Value(): State
      reads this, mem.data
    {
      State(i, d, mem.data[..], readCount, writeCount)
    }

    constructor (mem: Memory)
      ensures this.mem == mem && Value() == Start(mem.data[..])
    {
      this.mem := mem;
      i, d, readCount, writeCount := Empty, Empty, 0, 0;
    }

    method DriveBus(p: Pins) returns (ok: bool, igrant: bool, dgrant: bool)
      modifies this, mem.data
      ensures igrant == IGrant(old(Value()), p) && dgrant == DGrant(old(Value()), p)
      ensures ok == Drive(mem.base, old(Value()), p).Ok?
      ensures ok ==> Drive(mem.base, old(Value()), p) == Ok(Value())
    {
      igrant := !p.reset && p.ireq && !i.pending && !i.deliver;
      dgrant := !p.reset && p.dreq && !d.pending && !d.deliver;
      ok := true;
      if igrant {
        i := i.(pending := true, address := p.iaddr);
        readCount := readCount + 1;
      }
      if dgrant {
        d := d.(pending := true, address := p.daddr);
        if p.dwe {
          ok := mem.Write(p.daddr, p.dwdata, p.dbe);
          writeCount := writeCount + 1;
        } else {
          readCount := readCount + 1;
        }
      }
    }

    method SettleOne(c: Channel) returns (ok: bool, next: Channel)
      ensures ok == SettleChannel(mem.base, mem.data[..], c).Ok?
      ensures ok ==> SettleChannel(mem.base, mem.data[..], c) == Ok(next)
    {
      ok, next := true, c;
      if next.deliver { next := next.(deliver := false, pending := false); }
      if next.pending && !next.deliver {
        var word := mem.Read(next.address);
        if word.Err? { return false, c; }
        next := next.(rdata := word.value, deliver := true);
      }
    }

    method SettleBus() returns (ok: bool)
      modifies this
      ensures ok == Settle(mem.base, old(Value())).Ok?
      ensures ok ==> Settle(mem.base, old(Value())) == Ok(Value())
    {
      ok, i := SettleOne(i);
      if ok { ok, d := SettleOne(d); }
    }

    method Step(p: Pins) returns (ok: bool, igrant: bool, dgrant: bool)
      modifies this, mem.data
      ensures igrant == IGrant(old(Value()), p) && dgrant == DGrant(old(Value()), p)
      ensures ok == Tick(mem.base, old(Value()), p).Ok?
      ensures ok ==> Tick(mem.base, old(Value()), p) == Ok(Value())
    {
      ok, igrant, dgrant := DriveBus(p);
      if ok { ok := SettleBus(); }
    }
  }
}
