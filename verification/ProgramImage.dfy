/** The firmware image of a batch of generated programs: code slots back to back, one data window
    per case, and the constants that address them. */
module ProgramImage {

  // ---------------------------------------------------------------- LUI and ADDI

  /** The upper and the signed lower part of a 32-bit constant. */
  function HiLo(address: int): (int, int) {
    var low := (address % 0x1000 + 0x800) % 0x1000 - 0x800;
    ((address - low) / 0x1000 % 0x10_0000, low)
  }

  /** What LUI followed by ADDI leaves in a 32-bit register. */
  function LuiAddi(high: int, low: int): int { (high * 0x1000 + low) % 0x1_0000_0000 }

  /** The pair fits its immediate fields and rebuilds every 32-bit address. */
  lemma HiLoRebuilds(address: nat)
    requires address < 0x1_0000_0000
    ensures var (high, low) := HiLo(address);
            0 <= high < 0x10_0000 && -0x800 <= low < 0x800 && LuiAddi(high, low) == address
  {
    var (high, low) := HiLo(address);
    var upper := (address - low) / 0x1000;
    assert address - low == upper * 0x1000;
    assert 0 <= upper <= 0x10_0000;
    assert high == if upper == 0x10_0000 then 0 else upper;
  }

  // ---------------------------------------------------------------- blocks of words

  type Image = map<nat, bv32>

  /** Words at consecutive word addresses. */
  datatype Block = Block(base: nat, words: seq<bv32>)

  function End(b: Block): nat { b.base + 4 * |b.words| }

  predicate Apart(a: Block, b: Block) { End(a) <= b.base || End(b) <= a.base }

  /** The image after the first n words of a block are written. */
  function Installed(image: Image, b: Block, n: nat): Image
    requires n <= |b.words|
  {
    if n == 0 then image else Installed(image, b, n - 1)[b.base + 4 * (n - 1) := b.words[n - 1]]
  }

  function Laid(blocks: seq<Block>): Image {
    if blocks == [] then map[]
    else var last := blocks[|blocks| - 1]; Installed(Laid(blocks[..|blocks| - 1]), last, |last.words|)
  }

  predicate Covers(b: Block, address: nat) { b.base <= address < End(b) && (address - b.base) % 4 == 0 }

  function WordAt(b: Block, address: nat): bv32
    requires Covers(b, address)
  {
    b.words[(address - b.base) / 4]
  }

  lemma {:induction false} InstalledIs(image: Image, b: Block, n: nat, address: nat)
    requires n <= |b.words|
    ensures var first := b.(words := b.words[..n]);
            && (address in Installed(image, b, n) <==> address in image || Covers(first, address))
            && (address in Installed(image, b, n) ==>
                  Installed(image, b, n)[address] ==
                    if Covers(first, address) then WordAt(b, address) else image[address])
  {
    if n > 0 { InstalledIs(image, b, n - 1, address); }
  }

  predicate AllApart(blocks: seq<Block>) {
    forall j, k :: 0 <= j < k < |blocks| ==> Apart(blocks[j], blocks[k])
  }

  /** The image of some blocks, and of one more that lies apart from them, at one address. */
  lemma OneMoreBlock(blocks: seq<Block>, last: Block, address: nat)
    requires forall k :: 0 <= k < |blocks| ==> Apart(blocks[k], last)
    requires LaidAt(blocks, address)
    ensures LaidAt(blocks + [last], address)
  {
    var all := blocks + [last];
    assert all[..|blocks|] == blocks;
    InstalledIs(Laid(blocks), last, |last.words|, address);
    assert last.(words := last.words[..|last.words|]) == last;
    forall k | 0 <= k < |all| && Covers(all[k], address)
      ensures address in Laid(all) && Laid(all)[address] == WordAt(all[k], address)
    {
      assert k < |blocks| ==> all[k] == blocks[k] && Apart(blocks[k], last);
    }
    if address in Laid(all) && !Covers(last, address) {
      var k :| 0 <= k < |blocks| && Covers(blocks[k], address);
      assert all[k] == blocks[k];
    }
  }

  /** At this address the image has what the blocks have, and nothing if they have nothing. */
  ghost predicate LaidAt(blocks: seq<Block>, address: nat) {
    && (address in Laid(blocks) ==> exists k :: 0 <= k < |blocks| && Covers(blocks[k], address))
    && (forall k :: 0 <= k < |blocks| && Covers(blocks[k], address) ==>
          address in Laid(blocks) && Laid(blocks)[address] == WordAt(blocks[k], address))
  }

  /** Blocks that lie apart are all found in the image word for word, and nothing else is. */
  lemma {:induction false} LaidIs(blocks: seq<Block>, address: nat)
    requires AllApart(blocks)
    ensures LaidAt(blocks, address)
  {
    if blocks != [] {
      var n := |blocks| - 1;
      LaidIs(blocks[..n], address);
      OneMoreBlock(blocks[..n], blocks[n], address);
      assert blocks[..n] + [blocks[n]] == blocks;
    }
  }

  // ---------------------------------------------------------------- the batch

  const CaseStride := 0x100
  const SledWords := 8
  const DoneSentinel: bv32 := 0xffff_ffff

  datatype Case = Case(words: seq<bv32>, window: seq<bv32>)

  /** The instruction encoder, and the three words that are the same in every case. */
  datatype Encoder = Encoder(lui: int -> bv32, addi: int -> bv32, store: bv32, nop: bv32, halt: bv32)

  datatype Batch = Batch(codeBase: nat, dataBase: nat, dataWords: nat, cases: seq<Case>, enc: Encoder)

  /** Limits the configuration enforces on data windows. */
  predicate WindowsOk(b: Batch) {
    4 <= b.dataWords <= 60 && forall k :: 0 <= k < |b.cases| ==> |b.cases[k].window| == b.dataWords
  }

  function WindowBase(b: Batch, k: nat): nat { b.dataBase + k * CaseStride }

  function Preamble(enc: Encoder, address: nat): seq<bv32> {
    [enc.lui(HiLo(address).0), enc.addi(HiLo(address).1)]
  }

  /** Words of one case's slot: preamble, program, completion store and sled. */
  function SlotWords(b: Batch, k: nat): (words: seq<bv32>)
    requires k < |b.cases|
    ensures |words| == |b.cases[k].words| + 3 + SledWords
  {
    Preamble(b.enc, WindowBase(b, k)) + b.cases[k].words + [b.enc.store] + seq(SledWords, _ => b.enc.nop)
  }

  function Slot(b: Batch, k: nat): nat
    requires k <= |b.cases|
  {
    if k == 0 then b.codeBase else Slot(b, k - 1) + 4 * (|b.cases[k - 1].words| + 3 + SledWords)
  }

  function CodeBlock(b: Batch, k: nat): Block
    requires k < |b.cases|
  {
    Block(Slot(b, k), SlotWords(b, k))
  }

  /** A case's data window with its completion word behind it. */
  function DataBlock(b: Batch, k: nat): Block
    requires k < |b.cases|
  {
    Block(WindowBase(b, k), b.cases[k].window + [DoneSentinel])
  }

  /** The blocks in the order they are written. */
  function Blocks(b: Batch, n: nat): (blocks: seq<Block>)
    requires n <= |b.cases|
    ensures |blocks| == 2 * n
    ensures forall k :: 0 <= k < n ==> blocks[2 * k] == CodeBlock(b, k) && blocks[2 * k + 1] == DataBlock(b, k)
  {
    if n == 0 then [] else Blocks(b, n - 1) + [CodeBlock(b, n - 1), DataBlock(b, n - 1)]
  }

  function HaltBlock(b: Batch): Block { Block(Slot(b, |b.cases|), [b.enc.halt]) }

  function AllBlocks(b: Batch): seq<Block> { Blocks(b, |b.cases|) + [HaltBlock(b)] }

  function CodeEnd(b: Batch): nat { Slot(b, |b.cases|) + 4 }

  /** A data window and the code with its halt word share an address. */
  predicate WindowMeetsCode(b: Batch, k: nat)
    requires k < |b.cases|
  {
    b.codeBase < End(DataBlock(b, k)) && WindowBase(b, k) < CodeEnd(b)
  }

  /** No data window meets the code.  Nothing checks this when a batch is built. */
  predicate CodeClear(b: Batch) { forall k | 0 <= k < |b.cases| :: !WindowMeetsCode(b, k) }

  lemma {:induction false} SlotsGrow(b: Batch, j: nat, k: nat)
    requires j < k <= |b.cases|
    ensures End(CodeBlock(b, j)) <= Slot(b, k)
  {
    if j + 1 < k { SlotsGrow(b, j, k - 1); }
  }

  lemma CodeBlocksApart(b: Batch, j: nat, k: nat)
    requires j < k < |b.cases|
    ensures Apart(CodeBlock(b, j), CodeBlock(b, k))
  {
    SlotsGrow(b, j, k);
  }

  lemma DataBlocksApart(b: Batch, j: nat, k: nat)
    requires WindowsOk(b) && j < k < |b.cases|
    ensures Apart(DataBlock(b, j), DataBlock(b, k))
  {
  }

  lemma CodeDataApart(b: Batch, j: nat, k: nat)
    requires CodeClear(b) && j < |b.cases| && k < |b.cases|
    ensures Apart(CodeBlock(b, j), DataBlock(b, k)) && Apart(HaltBlock(b), DataBlock(b, k))
  {
    assert !WindowMeetsCode(b, k);
    SlotsAligned(b, j);
    SlotsAligned(b, |b.cases|);
    SlotsGrow(b, j, |b.cases|);
  }

  /** Where the blocks of a batch lie in its list. */
  lemma BlockAt(b: Batch, i: nat)
    requires i < |AllBlocks(b)|
    ensures i == 2 * |b.cases| ==> AllBlocks(b)[i] == HaltBlock(b)
    ensures i < 2 * |b.cases| ==> AllBlocks(b)[i] == if i % 2 == 0 then CodeBlock(b, i / 2) else DataBlock(b, i / 2)
  {
  }

  /** Every two blocks lie apart when no data window meets the code. */
  lemma BlocksApart(b: Batch)
    requires WindowsOk(b) && CodeClear(b)
    ensures AllApart(AllBlocks(b))
  {
    var blocks := AllBlocks(b);
    forall i, j | 0 <= i < j < |blocks| ensures Apart(blocks[i], blocks[j]) {
      TwoApart(b, i, j);
    }
  }

  lemma TwoApart(b: Batch, i: nat, j: nat)
    requires WindowsOk(b) && CodeClear(b) && i < j < |AllBlocks(b)|
    ensures Apart(AllBlocks(b)[i], AllBlocks(b)[j])
  {
    BlockAt(b, i);
    BlockAt(b, j);
    var p, q := i / 2, j / 2;
    if j == 2 * |b.cases| {
      if i % 2 == 0 { SlotsGrow(b, p, |b.cases|); } else { CodeDataApart(b, p, p); }
    } else if i % 2 == 0 && j % 2 == 0 {
      CodeBlocksApart(b, p, q);
    } else if i % 2 == 1 && j % 2 == 1 {
      DataBlocksApart(b, p, q);
    } else if i % 2 == 0 {
      CodeDataApart(b, p, q);
    } else {
      CodeDataApart(b, q, p);
    }
  }

  predicate OnCode(b: Batch, address: nat) {
    Covers(HaltBlock(b), address) || exists j :: 0 <= j < |b.cases| && Covers(CodeBlock(b, j), address)
  }

  predicate OnData(b: Batch, address: nat) {
    exists k :: 0 <= k < |b.cases| && Covers(DataBlock(b, k), address)
  }

  /** Some word of the code lies on some word of a data window. */
  ghost predicate Overlap(b: Batch) { exists address :: OnCode(b, address) && OnData(b, address) }

  lemma {:induction false} CodeHas(b: Batch, address: nat, n: nat)
    requires 0 < n <= |b.cases| && b.codeBase <= address < Slot(b, n) && (address - b.codeBase) % 4 == 0
    ensures exists j: nat :: j < n && Covers(CodeBlock(b, j), address)
  {
    SlotsAligned(b, n - 1);
    if address >= Slot(b, n - 1) {
      assert Covers(CodeBlock(b, n - 1), address);
    } else {
      SlotAtLeast(b, n - 1);
      CodeHas(b, address, n - 1);
    }
  }

  lemma {:induction false} SlotsAligned(b: Batch, n: nat)
    requires n <= |b.cases|
    ensures Slot(b, n) >= b.codeBase && (Slot(b, n) - b.codeBase) % 4 == 0
  {
    if n > 0 { SlotsAligned(b, n - 1); }
  }

  lemma SlotAtLeast(b: Batch, n: nat)
    requires n <= |b.cases| && Slot(b, n) > b.codeBase
    ensures n > 0
  {
  }

  predicate InCode(b: Batch, address: nat, end: nat) {
    b.codeBase <= address < end && (address - b.codeBase) % 4 == 0
  }

  lemma SlotInCode(b: Batch, address: nat, j: nat, n: nat)
    requires j < n <= |b.cases| && Covers(CodeBlock(b, j), address)
    ensures InCode(b, address, Slot(b, n))
  {
    SlotsAligned(b, j);
    SlotsGrow(b, j, n);
  }

  /** The code is one stretch of words. */
  lemma OnCodeIs(b: Batch, address: nat)
    ensures OnCode(b, address) <==> b.codeBase <= address < CodeEnd(b) && (address - b.codeBase) % 4 == 0
  {
    var n := |b.cases|;
    SlotsAligned(b, n);
    forall j | 0 <= j < n && Covers(CodeBlock(b, j), address) ensures InCode(b, address, Slot(b, n)) {
      SlotInCode(b, address, j, n);
    }
    if InCode(b, address, Slot(b, n)) {
      SlotAtLeast(b, n);
      CodeHas(b, address, n);
    }
  }

  lemma OverlapMeets(b: Batch, address: nat)
    requires OnCode(b, address) && OnData(b, address)
    ensures !CodeClear(b)
  {
    OnCodeIs(b, address);
    var k :| 0 <= k < |b.cases| && Covers(DataBlock(b, k), address);
    assert WindowMeetsCode(b, k);
  }

  lemma MeetingOverlaps(b: Batch, k: nat)
    requires WindowsOk(b) && b.codeBase % 4 == 0 && b.dataBase % 4 == 0 && k < |b.cases| && WindowMeetsCode(b, k)
    ensures Overlap(b)
  {
    var window := WindowBase(b, k);
    var address := if b.codeBase < window then window else b.codeBase;
    assert window % 4 == 0;
    SlotsAligned(b, |b.cases|);
    MeetsAt(b, k, address);
  }

  lemma MeetsAt(b: Batch, k: nat, address: nat)
    requires b.codeBase % 4 == 0 && b.dataBase % 4 == 0 && address % 4 == 0 && k < |b.cases|
    requires b.codeBase <= address < CodeEnd(b) && WindowBase(b, k) <= address < End(DataBlock(b, k))
    ensures Overlap(b)
  {
    OnCodeIs(b, address);
    OnWindow(b, k, address);
    assert OnCode(b, address) && OnData(b, address);
  }

  lemma OnWindow(b: Batch, k: nat, address: nat)
    requires b.dataBase % 4 == 0 && address % 4 == 0 && k < |b.cases|
             && WindowBase(b, k) <= address < End(DataBlock(b, k))
    ensures OnData(b, address)
  {
    var window := WindowBase(b, k);
    WordsApart(b.dataBase, k, window, address);
    assert Covers(DataBlock(b, k), address);
  }

  lemma WordsApart(base: nat, k: nat, window: nat, address: nat)
    requires base % 4 == 0 && window == base + k * CaseStride && address % 4 == 0 && window <= address
    ensures (address - window) % 4 == 0
  {
    assert window % 4 == 0;
  }

  /** The check that the batch does not make, exactly: some word of the code lies on some word of a
      data window if and only if some window meets the stretch of the code. */
  lemma OverlapIff(b: Batch)
    requires WindowsOk(b) && b.codeBase % 4 == 0 && b.dataBase % 4 == 0
    ensures Overlap(b) <==> !CodeClear(b)
  {
    forall address | OnCode(b, address) && OnData(b, address) ensures !CodeClear(b) { OverlapMeets(b, address); }
    forall k | 0 <= k < |b.cases| && WindowMeetsCode(b, k) ensures Overlap(b) { MeetingOverlaps(b, k); }
  }

  /** For data from the code base on, no window meets the code exactly when the code with its halt
      word ends before the first window. */
  lemma DataAboveIff(b: Batch)
    requires WindowsOk(b) && |b.cases| > 0 && b.codeBase <= b.dataBase
    ensures CodeClear(b) <==> CodeEnd(b) <= b.dataBase
  {
    if CodeClear(b) { assert !WindowMeetsCode(b, 0); }
  }

  lemma {:induction false} SlotsOfEight(b: Batch, n: nat)
    requires n <= |b.cases| && forall k | 0 <= k < |b.cases| :: |b.cases[k].words| == 8
    ensures Slot(b, n) == b.codeBase + 76 * n
  {
    if n > 0 { SlotsOfEight(b, n - 1); }
  }

  /** The default place of the data, sixteen strides above the code, is too near for 64 programs of
      eight words. */
  lemma DefaultCanOverlap(b: Batch)
    requires WindowsOk(b) && b.codeBase % 4 == 0 && b.dataBase == b.codeBase + CaseStride * 16
    requires |b.cases| == 64 && forall k | 0 <= k < |b.cases| :: |b.cases[k].words| == 8
    ensures Overlap(b)
  {
    SlotsOfEight(b, 64);
    OverlapIff(b);
    DataAboveIff(b);
  }

  /** Data just below the code overlaps it with a single case. */
  lemma DataBelowCanOverlap(enc: Encoder, words: seq<bv32>, window: seq<bv32>)
    requires |window| == 16
    ensures var b := Batch(0x1000, 0x0fe0, 16, [Case(words, window)], enc); WindowsOk(b) && Overlap(b)
  {
    var b := Batch(0x1000, 0x0fe0, 16, [Case(words, window)], enc);
    SlotsAligned(b, 1);
    OverlapIff(b);
    assert WindowMeetsCode(b, 0);
  }

  // ---------------------------------------------------------------- building the image

  method WriteBlock(image: Image, b: Block) returns (after: Image)
    ensures after == Installed(image, b, |b.words|)
  {
    after := image;
    var offset := 0;
    while offset < |b.words|
      invariant 0 <= offset <= |b.words|
      invariant after == Installed(image, b, offset)
    {
      after := after[b.base + 4 * offset := b.words[offset]];
      offset := offset + 1;
    }
  }

  /** The image of a batch: its blocks, written in order. */
  method ProgramBatch(b: Batch) returns (image: Image)
    ensures image == Laid(AllBlocks(b))
  {
    image := map[];
    var code, index := b.codeBase, 0;
    while index < |b.cases|
      invariant 0 <= index <= |b.cases| && code == Slot(b, index)
      invariant image == Laid(Blocks(b, index))
    {
      CaseLaid(b, index);
      image := WriteBlock(image, Block(code, SlotWords(b, index)));
      image := WriteBlock(image, DataBlock(b, index));
      code := code + 4 * |SlotWords(b, index)|;
      index := index + 1;
    }
    LaidMore(Blocks(b, index), HaltBlock(b));
    image := image[code := b.enc.halt];
  }

  lemma CaseLaid(b: Batch, n: nat)
    requires n < |b.cases|
    ensures var code, data := CodeBlock(b, n), DataBlock(b, n);
            Laid(Blocks(b, n + 1)) == Installed(Installed(Laid(Blocks(b, n)), code, |code.words|), data, |data.words|)
  {
    var code, data := CodeBlock(b, n), DataBlock(b, n);
    LaidMore(Blocks(b, n), code);
    LaidMore(Blocks(b, n) + [code], data);
    assert Blocks(b, n) + [code] + [data] == Blocks(b, n + 1);
  }

  lemma LaidMore(blocks: seq<Block>, b: Block)
    ensures Laid(blocks + [b]) == Installed(Laid(blocks), b, |b.words|)
  {
  }
}
