/** The host's classic Wishbone service over one RAM. */
module WishboneService {
  import opened Wrappers
  import opened Ram

  datatype State = State(armed: bool, pending: bool, rdata: bv32, bytes: seq<bv8>, readCount: nat, writeCount: nat)

  datatype Pins = Pins(reset: bool, cyc: bool, stb: bool, we: bool, adr: nat, datW: bv32, sel: bv8)

  function Start(bytes: seq<bv8>): State { State(true, false, 0, bytes, 0, 0) }

  predicate Active(p: Pins) { !p.reset && p.cyc && p.stb }

  /** The tick accesses the RAM. */
  predicate Accesses(s: State, p: Pins) { Active(p) && s.armed && !s.pending }

  predicate Ack(s: State, p: Pins) { Active(p) && !Accesses(s, p) && s.pending }

  function Access(base: nat, s: State, p: Pins): Result<State> {
    var s := s.(armed := false, pending := true);
    if p.we then
      var stored := StoreWord(base, s.bytes, p.adr, p.datW, p.sel);
      if stored.Ok? then Ok(s.(bytes := stored.value, writeCount := s.writeCount + 1)) else Err
    else
      var word := Fetch(base, s.bytes, p.adr);
      if word.Ok? then Ok(s.(rdata := word.value, readCount := s.readCount + 1)) else Err
  }

  function Tick(base: nat, s: State, p: Pins): Result<State> {
    if !Active(p) then Ok(s.(armed := true, pending := false))
    else if s.armed && !s.pending then Access(base, s, p)
    else if s.pending then Ok(s.(pending := false))
    else Ok(s)
  }

  predicate IsRun(base: nat, states: seq<State>, pins: seq<Pins>) {
    && |states| == |pins| + 1
    && states[0] == Start(states[0].bytes)
    && forall t :: 0 <= t < |pins| ==> Tick(base, states[t], pins[t]) == Ok(states[t + 1])
  }

  /** How many active ticks come immediately before tick t. */
  function ActiveBefore(pins: seq<Pins>, t: nat): (n: nat)
    requires t <= |pins|
    ensures n <= t
  {
    if t > 0 && Active(pins[t - 1]) then ActiveBefore(pins, t - 1) + 1 else 0
  }

  /** The flags count the active ticks of the current stretch up to two. */
  lemma {:induction false} FlagsCount(base: nat, states: seq<State>, pins: seq<Pins>, t: nat)
    requires IsRun(base, states, pins) && t <= |pins|
    ensures states[t].armed <==> ActiveBefore(pins, t) == 0
    ensures states[t].pending <==> ActiveBefore(pins, t) == 1
  {
    if t > 0 {
      FlagsCount(base, states, pins, t - 1);
      assert Tick(base, states[t - 1], pins[t - 1]) == Ok(states[t]);
    }
  }

  /** A stretch of active ticks accesses the RAM in its first tick and only there, and is
      acknowledged in its second tick and only there; a read is acknowledged with its word. */
  lemma OncePerStretch(base: nat, states: seq<State>, pins: seq<Pins>, t: nat)
    requires IsRun(base, states, pins) && t < |pins|
    ensures Accesses(states[t], pins[t]) <==> Active(pins[t]) && ActiveBefore(pins, t) == 0
    ensures Ack(states[t], pins[t]) <==> Active(pins[t]) && ActiveBefore(pins, t) == 1
    ensures !Accesses(states[t], pins[t]) ==>
              states[t + 1].bytes == states[t].bytes && states[t + 1].rdata == states[t].rdata
              && states[t + 1].writeCount == states[t].writeCount && states[t + 1].readCount == states[t].readCount
    ensures Accesses(states[t], pins[t]) && pins[t].we ==>
              StoreWord(base, states[t].bytes, pins[t].adr, pins[t].datW, pins[t].sel) == Ok(states[t + 1].bytes)
              && states[t + 1].writeCount == states[t].writeCount + 1
    ensures Accesses(states[t], pins[t]) && !pins[t].we ==>
              Fetch(base, states[t].bytes, pins[t].adr) == Ok(states[t + 1].rdata)
              && states[t + 1].bytes == states[t].bytes
              && states[t + 1].readCount == states[t].readCount + 1
  {
    FlagsCount(base, states, pins, t);
    assert Tick(base, states[t], pins[t]) == Ok(states[t + 1]);
  }

  /** The starts of write stretches before t. */
  function WriteStretches(pins: seq<Pins>, t: nat): nat
    requires t <= |pins|
  {
    if t == 0 then 0
    else
      WriteStretches(pins, t - 1)
      + if Active(pins[t - 1]) && ActiveBefore(pins, t - 1) == 0 && pins[t - 1].we then 1 else 0
  }

  /** No store is ever repeated: there is one per stretch that starts as a write. */
  lemma {:induction false} StoresAreStretches(base: nat, states: seq<State>, pins: seq<Pins>, t: nat)
    requires IsRun(base, states, pins) && t <= |pins|
    ensures states[t].writeCount == WriteStretches(pins, t)
  {
    if t > 0 {
      StoresAreStretches(base, states, pins, t - 1);
      OncePerStretch(base, states, pins, t - 1);
    }
  }

  class Bench {
    const mem: Memory
    var armed: bool
    var pending: bool
    var rdata: bv32
    var readCount: nat
    var writeCount: nat

    ghost function Value(): State
      reads this, mem.data
    {
      State(armed, pending, rdata, mem.data[..], readCount, writeCount)
    }

    constructor (mem: Memory)
      ensures this.mem == mem && Value() == Start(mem.data[..])
    {
      this.mem := mem;
      armed, pending, rdata, readCount, writeCount := true, false, 0, 0, 0;
    }

    method DriveBus(p: Pins) returns (ok: bool, ack: bool)
      modifies this, mem.data
      ensures ack == Ack(old(Value()), p)
      ensures ok == Tick(mem.base, old(Value()), p).Ok?
      ensures ok ==> Tick(mem.base, old(Value()), p) == Ok(Value())
    {
      ok, ack := true, false;
      if !Active(p) {
        armed, pending := true, false;
      } else if armed && !pending {
        ok := Serve(p);
      } else if pending {
        ack, pending := true, false;
      }
    }

    method Serve(p: Pins) returns (ok: bool)
      modifies this, mem.data
      ensures ok == Access(mem.base, old(Value()), p).Ok?
      ensures ok ==> Access(mem.base, old(Value()), p) == Ok(Value())
    {
      ok := true;
      armed, pending := false, true;
      if p.we {
        ok := mem.Write(p.adr, p.datW, p.sel);
        writeCount := writeCount + 1;
      } else {
        var word := mem.Read(p.adr);
        if word.Err? { return false; }
        rdata := word.value;
        readCount := readCount + 1;
      }
    }
  }
}
