/** A 64-bit beat served as the 32-bit words of the host's RAM. */
module Lanes {
  import opened LinkModel
  import opened Ram

  datatype WordAccess = WordAccess(address: nat, value: bv32, be: bv8)

  function LowHalf(v: bv64): bv32 { (v & 0xffff_ffff) as bv32 }

  function HighHalf(v: bv64): bv32 { (v >> 32) as bv32 }

  /** The two words of a read, joined; each half of the result is one of them. */
  function JoinBeatRead(low: bv32, high: bv32): (v: bv64)
    ensures LowHalf(v) == low && HighHalf(v) == high
  {
    (low as bv64) | ((high as bv64) << 32)
  }

  /** The 8-byte line a beat lies in. */
  function Line(beat: Beat): nat { beat.address - beat.address % 8 }

  /** The words one beat covers: the halves with a selected lane, and both for a read without lanes. */
  function SplitBeat(beat: Beat): seq<WordAccess> {
    var all := beat.be == 0 && !beat.write;
    Halves(Line(beat), LowHalf(beat.wdata), HighHalf(beat.wdata),
           if all then 0x0f else beat.be & 0x0f, if all then 0x0f else (beat.be >> 4) & 0x0f)
  }

  function Halves(line: nat, low: bv32, high: bv32, lowBe: bv8, highBe: bv8): seq<WordAccess> {
    (if lowBe != 0 then [WordAccess(line, low, lowBe)] else []) +
    (if highBe != 0 then [WordAccess(line + 4, high, highBe)] else [])
  }

  // ---------------------------------------------------------------- reference meaning, lane by lane

  /** The lanes of a beat's mask, lane 0 first. */
  function Lanes8(be: bv8): (lanes: seq<bool>)
    ensures |lanes| == 8
  {
    LowLanes(be, 8)
  }

  /** The bytes of a beat's data in little-endian order. */
  function Bytes8(v: bv64): seq<bv8> { Bytes4(LowHalf(v)) + Bytes4(HighHalf(v)) }

  /** A half of the line that the beat has to access: one with a selected lane, or either half for a
      read that selects none. */
  predicate LowTouched(beat: Beat) { true in Lanes8(beat.be)[..4] || (!beat.write && true !in Lanes8(beat.be)) }

  predicate HighTouched(beat: Beat) { true in Lanes8(beat.be)[4..] || (!beat.write && true !in Lanes8(beat.be)) }

  /** The RAM holds every half that the beat touches. */
  predicate Covered(base: nat, size: nat, beat: Beat) {
    && (LowTouched(beat) ==> InBounds(base, size, Line(beat)))
    && (HighTouched(beat) ==> InBounds(base, size, Line(beat) + 4))
  }

  // ---------------------------------------------------------------- lanes of the two words

  const NoLanes := [false, false, false, false]

  lemma EightLanes(be: bv8, b1: bv8, b2: bv8, b3: bv8, b4: bv8)
    requires be >> 1 == b1 && b1 >> 1 == b2 && b2 >> 1 == b3 && b3 >> 1 == b4
    ensures Lanes8(be) == [be & 1 != 0, b1 & 1 != 0, b2 & 1 != 0, b3 & 1 != 0] + Lanes4(b4)
  {
    assert LowLanes(b3, 5) == [b3 & 1 != 0] + LowLanes(b4, 4);
    assert LowLanes(b2, 6) == [b2 & 1 != 0] + LowLanes(b3, 5);
    assert LowLanes(b1, 7) == [b1 & 1 != 0] + LowLanes(b2, 6);
  }

  lemma Lanes8Is(be: bv8)
    ensures Lanes8(be) == Lanes4(be) + Lanes4(be >> 4)
  {
    var b1, b2, b3, b4 := be >> 1, be >> 2, be >> 3, be >> 4;
    assert b1 >> 1 == b2 && b2 >> 1 == b3 && b3 >> 1 == b4;
    Lanes4Is(be);
    EightLanes(be, b1, b2, b3, b4);
  }

  /** The two masks of a beat's words are the halves of its mask. */
  lemma LaneHalves(be: bv8)
    ensures Lanes4(be & 0x0f) + Lanes4((be >> 4) & 0x0f) == Lanes8(be)
  {
    Lanes8Is(be);
    SameLanes(be & 0x0f, be);
    SameLanes((be >> 4) & 0x0f, be >> 4);
  }

  lemma SameLanes(a: bv8, b: bv8)
    requires a == b & 0x0f
    ensures Lanes4(a) == Lanes4(b)
  {
    Lanes4Is(a);
    Lanes4Is(b);
  }

  lemma NoLane(be: bv8)
    requires be <= 0x0f
    ensures be == 0 <==> Lanes4(be) == NoLanes
  {
    Lanes4Is(be);
    if be != 0 { assert be & 1 != 0 || (be >> 1) & 1 != 0 || (be >> 2) & 1 != 0 || (be >> 3) & 1 != 0; }
  }

  lemma FourLanes(lanes: seq<bool>)
    requires |lanes| == 4
    ensures true !in lanes <==> lanes == NoLanes
  {
    if true !in lanes {
      assert !lanes[0] && !lanes[1] && !lanes[2] && !lanes[3];
    } else if lanes == NoLanes {
      assert false;
    }
  }

  lemma TouchedIs(beat: Beat)
    ensures LowTouched(beat) <==> beat.be & 0x0f != 0 || (beat.be == 0 && !beat.write)
    ensures HighTouched(beat) <==> (beat.be >> 4) & 0x0f != 0 || (beat.be == 0 && !beat.write)
  {
    var low, high := Lanes4(beat.be & 0x0f), Lanes4((beat.be >> 4) & 0x0f);
    LaneHalves(beat.be);
    NoLane(beat.be & 0x0f);
    NoLane((beat.be >> 4) & 0x0f);
    assert beat.be == 0 <==> beat.be & 0x0f == 0 && (beat.be >> 4) & 0x0f == 0;
    FourLanes(low);
    FourLanes(high);
    assert Lanes8(beat.be)[..4] == low && Lanes8(beat.be)[4..] == high;
  }

  // ---------------------------------------------------------------- a write, word by word

  datatype Patch = Patch(start: int, bytes: seq<bv8>, lanes: seq<bool>)

  predicate IsWord(p: Patch) { |p.bytes| == |p.lanes| == 4 }

  function PatchOf(base: nat, w: WordAccess): (p: Patch)
    ensures IsWord(p)
  {
    Patch(w.address - base, Bytes4(w.value), Lanes4(w.be))
  }

  predicate AllWords(ps: seq<Patch>) { forall k :: 0 <= k < |ps| ==> IsWord(ps[k]) }

  function Patches(base: nat, words: seq<WordAccess>): (ps: seq<Patch>)
    ensures |ps| == |words| && AllWords(ps)
    ensures forall k :: 0 <= k < |words| ==> ps[k] == PatchOf(base, words[k])
  {
    seq(|words|, k requires 0 <= k < |words| => PatchOf(base, words[k]))
  }

  /** The first n patches applied in order. */
  function Written(data: seq<bv8>, ps: seq<Patch>, n: nat): seq<bv8>
    requires n <= |ps| && AllWords(ps)
  {
    if n == 0 then data else PutPatch(Written(data, ps, n - 1), ps[n - 1])
  }

  function PutPatch(data: seq<bv8>, p: Patch): seq<bv8>
    requires IsWord(p)
  {
    Put(data, p.start, p.bytes, p.lanes)
  }

  /** Two adjacent masked writes are one. */
  lemma PutTwice(data: seq<bv8>, p: Patch, q: Patch)
    requires IsWord(p) && IsWord(q) && q.start == p.start + 4
    ensures PutPatch(PutPatch(data, p), q) == Put(data, p.start, p.bytes + q.bytes, p.lanes + q.lanes)
  {
  }

  lemma PutNothing(data: seq<bv8>, p: Patch)
    requires IsWord(p) && p.lanes == NoLanes
    ensures PutPatch(data, p) == data
  {
  }

  function Chosen(p: Patch, q: Patch, withP: bool, withQ: bool): (ps: seq<Patch>)
    requires IsWord(p) && IsWord(q)
    ensures AllWords(ps)
  {
    (if withP then [p] else []) + (if withQ then [q] else [])
  }

  /** A half without lanes may be left out. */
  lemma ChosenIsBoth(data: seq<bv8>, p: Patch, q: Patch, withP: bool, withQ: bool)
    requires IsWord(p) && IsWord(q) && q.start == p.start + 4
    requires (!withP ==> p.lanes == NoLanes) && (!withQ ==> q.lanes == NoLanes)
    ensures var ps := Chosen(p, q, withP, withQ);
            Written(data, ps, |ps|) == Put(data, p.start, p.bytes + q.bytes, p.lanes + q.lanes)
  {
    var ps := Chosen(p, q, withP, withQ);
    if !withP { PutNothing(data, p); }
    if !withQ { PutNothing(PutPatch(data, p), q); }
    assert Written(data, ps, if withP then 1 else 0) == PutPatch(data, p);
    assert Written(data, ps, |ps|) == PutPatch(PutPatch(data, p), q);
    PutTwice(data, p, q);
  }

  lemma HalvesArePatches(base: nat, line: nat, low: bv32, high: bv32, lowBe: bv8, highBe: bv8)
    ensures Patches(base, Halves(line, low, high, lowBe, highBe))
            == Chosen(PatchOf(base, WordAccess(line, low, lowBe)), PatchOf(base, WordAccess(line + 4, high, highBe)),
                      lowBe != 0, highBe != 0)
  {
  }

  lemma HalvesWrite(data: seq<bv8>, base: nat, line: nat, words: seq<WordAccess>,
                    low: bv32, high: bv32, lowBe: bv8, highBe: bv8, bytes: seq<bv8>, lanes: seq<bool>)
    requires words == Halves(line, low, high, lowBe, highBe)
    requires (lowBe == 0 ==> Lanes4(lowBe) == NoLanes) && (highBe == 0 ==> Lanes4(highBe) == NoLanes)
    requires bytes == Bytes4(low) + Bytes4(high) && lanes == Lanes4(lowBe) + Lanes4(highBe)
    ensures Written(data, Patches(base, words), |words|) == Put(data, line - base, bytes, lanes)
  {
    var p, q := PatchOf(base, WordAccess(line, low, lowBe)), PatchOf(base, WordAccess(line + 4, high, highBe));
    HalvesArePatches(base, line, low, high, lowBe, highBe);
    ChosenIsBoth(data, p, q, lowBe != 0, highBe != 0);
  }

  /** The words of a write, in order, are a masked write of its line. */
  lemma WordsAreLanes(data: seq<bv8>, base: nat, beat: Beat, words: seq<WordAccess>, bytes: seq<bv8>, lanes: seq<bool>)
    requires beat.write && words == SplitBeat(beat) && bytes == Bytes8(beat.wdata) && lanes == Lanes8(beat.be)
    ensures Written(data, Patches(base, words), |words|) == Put(data, Line(beat) - base, bytes, lanes)
  {
    var lowBe, highBe := beat.be & 0x0f, (beat.be >> 4) & 0x0f;
    NoLane(lowBe);
    NoLane(highBe);
    LaneHalves(beat.be);
    HalvesWrite(data, base, Line(beat), words, LowHalf(beat.wdata), HighHalf(beat.wdata), lowBe, highBe, bytes, lanes);
  }
}
