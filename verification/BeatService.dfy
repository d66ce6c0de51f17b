/** The service that answers a beat from the host's RAM through its 32-bit words. */
module BeatService {
  import opened Wrappers
  import opened LinkModel
  import opened Ram
  import opened Lanes

  /** Where the words of a beat lie. */
  function Places(line: nat, low: bool, high: bool): seq<nat> {
    (if low then [line] else []) + (if high then [line + 4] else [])
  }

  predicate Lie(words: seq<WordAccess>, places: seq<nat>) {
    |words| == |places| && forall k :: 0 <= k < |words| ==> words[k].address == places[k]
  }

  lemma HalvesLie(line: nat, low: bv32, high: bv32, lowBe: bv8, highBe: bv8)
    ensures Lie(Halves(line, low, high, lowBe, highBe), Places(line, lowBe != 0, highBe != 0))
  {
  }

  /** A beat is split into one word per touched half, the low one first. */
  lemma SplitLies(beat: Beat)
    ensures Lie(SplitBeat(beat), Places(Line(beat), LowTouched(beat), HighTouched(beat)))
  {
    var all := beat.be == 0 && !beat.write;
    var lowBe := if all then 0x0f else beat.be & 0x0f;
    var highBe := if all then 0x0f else (beat.be >> 4) & 0x0f;
    TouchedIs(beat);
    HalvesLie(Line(beat), LowHalf(beat.wdata), HighHalf(beat.wdata), lowBe, highBe);
  }

  // ---------------------------------------------------------------- writes

  /** Writes words until one is refused, and says how many were written. */
  method WriteWords(mem: Memory, words: seq<WordAccess>) returns (done: nat)
    modifies mem.data
    ensures done <= |words|
    ensures AllIn(mem.base, mem.data.Length, words, done)
    ensures done < |words| ==> !InBounds(mem.base, mem.data.Length, words[done].address)
    ensures mem.data[..] == Written(old(mem.data[..]), Patches(mem.base, words), done)
  {
    done := 0;
    ghost var was, ps := mem.data[..], Patches(mem.base, words);
    while done < |words|
      invariant 0 <= done <= |words| && AllIn(mem.base, mem.data.Length, words, done)
      invariant mem.data[..] == Written(was, ps, done)
    {
      var ok := WriteOne(mem, words[done]);
      if !ok { return; }
      WrittenNext(was, ps, done);
      done := done + 1;
    }
  }

  lemma WrittenNext(data: seq<bv8>, ps: seq<Patch>, n: nat)
    requires AllWords(ps) && n < |ps|
    ensures Written(data, ps, n + 1) == PutPatch(Written(data, ps, n), ps[n])
  {
  }

  predicate AllIn(base: nat, size: nat, words: seq<WordAccess>, n: nat)
    requires n <= |words|
  {
    forall k :: 0 <= k < n ==> InBounds(base, size, words[k].address)
  }

  method WriteOne(mem: Memory, word: WordAccess) returns (ok: bool)
    modifies mem.data
    ensures ok <==> InBounds(mem.base, mem.data.Length, word.address)
    ensures mem.data[..] == if ok then PutPatch(old(mem.data[..]), PatchOf(mem.base, word)) else old(mem.data[..])
  {
    ok := mem.Write(word.address, word.value, word.be);
  }

  /** A write beat through the RAM is a masked write of its line.  It fails exactly when a touched
      half is out of bounds, and then the low half has been written if that one was not. */
  method ServeWrite(mem: Memory, beat: Beat) returns (ok: bool)
    requires beat.write
    modifies mem.data
    ensures ok <==> Covered(mem.base, mem.data.Length, beat)
    ensures ok ==> mem.data[..] == Put(old(mem.data[..]), Line(beat) - mem.base, Bytes8(beat.wdata), Lanes8(beat.be))
    ensures !ok ==>
              mem.data[..] == if LowTouched(beat) && InBounds(mem.base, mem.data.Length, Line(beat))
                              then Put(old(mem.data[..]), Line(beat) - mem.base, Bytes4(LowHalf(beat.wdata)),
                                       Lanes4(beat.be & 0x0f))
                              else old(mem.data[..])
  {
    var words := SplitBeat(beat);
    ghost var was := mem.data[..];
    var done := WriteWords(mem, words);
    ok := done == |words|;
    Served(was, mem.base, beat, words, done);
  }

  /** What the first `done` words of a write leave behind, by how far it got. */
  lemma Served(data: seq<bv8>, base: nat, beat: Beat, words: seq<WordAccess>, done: nat)
    requires beat.write && words == SplitBeat(beat) && done <= |words|
    requires AllIn(base, |data|, words, done)
    requires done < |words| ==> !InBounds(base, |data|, words[done].address)
    ensures done == |words| <==> Covered(base, |data|, beat)
    ensures done == |words| ==> Written(data, Patches(base, words), done)
                                == Put(data, Line(beat) - base, Bytes8(beat.wdata), Lanes8(beat.be))
    ensures done < |words| ==> Written(data, Patches(base, words), done)
                               == if LowTouched(beat) && InBounds(base, |data|, Line(beat))
                                  then Put(data, Line(beat) - base, Bytes4(LowHalf(beat.wdata)), Lanes4(beat.be & 0x0f))
                                  else data
  {
    SplitLies(beat);
    Reported(base, |data|, Line(beat), LowTouched(beat), HighTouched(beat), done);
    if done == |words| {
      WordsAreLanes(data, base, beat, words, Bytes8(beat.wdata), Lanes8(beat.be));
    } else {
      PartlyWritten(data, base, beat, done);
    }
  }

  /** A refused write has done nothing, or the low word only. */
  lemma PartlyWritten(data: seq<bv8>, base: nat, beat: Beat, done: nat)
    requires beat.write && done < |SplitBeat(beat)| && (done == 1 ==> LowTouched(beat)) && done <= 1
    ensures Written(data, Patches(base, SplitBeat(beat)), done)
            == if done == 0 then data
               else Put(data, Line(beat) - base, Bytes4(LowHalf(beat.wdata)), Lanes4(beat.be & 0x0f))
  {
  }

  /** How far a sequence of words gets tells which half was refused. */
  lemma Reported(base: nat, size: nat, line: nat, low: bool, high: bool, done: nat)
    requires done <= |Places(line, low, high)|
    requires forall k :: 0 <= k < done ==> InBounds(base, size, Places(line, low, high)[k])
    requires done < |Places(line, low, high)| ==> !InBounds(base, size, Places(line, low, high)[done])
    ensures done == |Places(line, low, high)|
            <==> (low ==> InBounds(base, size, line)) && (high ==> InBounds(base, size, line + 4))
    ensures done < |Places(line, low, high)| ==> done == if low && InBounds(base, size, line) then 1 else 0
  {
    var places := Places(line, low, high);
    assert low ==> places[0] == line;
    assert high ==> places[|places| - 1] == line + 4;
    assert done > 0 ==> InBounds(base, size, places[0]);
  }

  // ---------------------------------------------------------------- reads

  /** The word at this address holds the RAM's bytes. */
  predicate Holds(mem: Memory, address: nat, value: bv32)
    reads mem.data
  {
    InBounds(mem.base, mem.data.Length, address)
    && Bytes4(value) == mem.data[address - mem.base..address - mem.base + 4]
  }

  /** Reads the words of one line into its halves. */
  method ReadWords(mem: Memory, words: seq<WordAccess>, ghost line: nat, ghost lowUsed: bool, ghost highUsed: bool)
    returns (ok: bool, low: bv32, high: bv32)
    requires line % 8 == 0 && Lie(words, Places(line, lowUsed, highUsed))
    ensures ok <==> (lowUsed ==> InBounds(mem.base, mem.data.Length, line))
                    && (highUsed ==> InBounds(mem.base, mem.data.Length, line + 4))
    ensures ok ==> if lowUsed then Holds(mem, line, low) else low == 0
    ensures ok ==> if highUsed then Holds(mem, line + 4, high) else high == 0
  {
    low, high := 0, 0;
    var index := 0;
    while index < |words|
      invariant 0 <= index <= |words|
      invariant lowUsed && index > 0 ==> Holds(mem, line, low)
      invariant highUsed && index == |words| ==> Holds(mem, line + 4, high)
      invariant !lowUsed ==> low == 0
      invariant !highUsed ==> high == 0
    {
      var value := mem.Read(words[index].address);
      if value.Err? { return false, 0, 0; }
      assert words[index].address == if lowUsed && index == 0 then line else line + 4;
      if words[index].address / 4 % 2 == 1 { high := value.value; } else { low := value.value; }
      index := index + 1;
    }
    ok := true;
  }

  /** A read beat fails exactly when a touched half is out of bounds.  Otherwise every touched half
      of the answer holds the RAM's bytes in little-endian order and an untouched one is zero. */
  method ServeRead(mem: Memory, beat: Beat) returns (r: Result<bv64>)
    requires !beat.write
    ensures r.Ok? <==> Covered(mem.base, mem.data.Length, beat)
    ensures r.Ok? ==> if LowTouched(beat) then Holds(mem, Line(beat), LowHalf(r.value)) else LowHalf(r.value) == 0
    ensures r.Ok? ==>
              if HighTouched(beat) then Holds(mem, Line(beat) + 4, HighHalf(r.value)) else HighHalf(r.value) == 0
  {
    var words := SplitBeat(beat);
    SplitLies(beat);
    var ok, low, high := ReadWords(mem, words, Line(beat), LowTouched(beat), HighTouched(beat));
    if !ok { return Err; }
    return Ok(JoinBeatRead(low, high));
  }

  /** A selected lane lies in a touched half, so a read that succeeds returns every lane it selects. */
  lemma SelectedIsTouched(beat: Beat, i: nat)
    requires i < 8 && Lanes8(beat.be)[i]
    ensures if i < 4 then LowTouched(beat) else HighTouched(beat)
  {
    if i < 4 {
      assert Lanes8(beat.be)[..4][i];
    } else {
      assert Lanes8(beat.be)[4..][i - 4];
    }
  }
}
