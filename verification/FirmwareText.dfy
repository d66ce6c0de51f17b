/** The firmware image: printed as text, loaded into the host's RAM, hashed on both sides. */
module FirmwareText {
  import opened Wrappers
  import opened Sequences
  import opened Ram
  import opened ProgramImage
  import opened FirmwareStream
  import opened Hashes

  // ---------------------------------------------------------------- bytes as pairs of characters

  function HexByte(b: bv8): string { [Digit((b as nat) / 16), Digit((b as nat) % 16)] }

  /** The byte two characters stand for, as the C library reads them: a second character that is no
      digit is ignored, and a first one may be a sign. */
  function ByteFrom(high: char, low: char): Option<bv8> {
    if IsHex(high) then
      if IsHex(low) then Some((16 * Value(high) + Value(low)) as bv8) else Some(Value(high) as bv8)
    else if !IsHex(low) then None
    else if high == '+' then Some(Value(low) as bv8)
    else if high == '-' then Some(((256 - Value(low)) % 256) as bv8)
    else None
  }

  lemma ByteRoundTrip(b: bv8)
    ensures ByteFrom(HexByte(b)[0], HexByte(b)[1]) == Some(b)
  {
    var n := b as nat;
    DigitsOf(n);
    assert n as bv8 == b;
  }

  lemma DigitsOf(n: nat)
    requires n < 256
    ensures IsHex(Digit(n / 16)) && IsHex(Digit(n % 16)) && 16 * Value(Digit(n / 16)) + Value(Digit(n % 16)) == n
  {
    DigitValue(n / 16);
    DigitValue(n % 16);
  }

  function HexBytes(bytes: seq<bv8>): (s: string)
    ensures |s| == 2 * |bytes|
  {
    if bytes == [] then "" else HexByte(bytes[0]) + HexBytes(bytes[1..])
  }

  /** The bytes that pairs of characters stand for; none when a pair stands for none. */
  function Decoded(hex: string): (bytes: Option<seq<bv8>>)
    ensures bytes.Some? ==> |bytes.value| == |hex| / 2
  {
    if |hex| < 2 then Some([])
    else
      var first :- ByteFrom(hex[0], hex[1]);
      var rest :- Decoded(hex[2..]);
      Some([first] + rest)
  }

  lemma {:induction false} DecodedAt(hex: string, i: nat)
    requires i < |hex| / 2
    ensures Decoded(hex).Some? ==> ByteFrom(hex[2 * i], hex[2 * i + 1]) == Some(Decoded(hex).value[i])
  {
    if i > 0 { DecodedAt(hex[2..], i - 1); }
  }

  lemma {:induction false} BytesRoundTrip(bytes: seq<bv8>)
    ensures Decoded(HexBytes(bytes)) == Some(bytes)
  {
    if bytes != [] {
      ByteRoundTrip(bytes[0]);
      BytesRoundTrip(bytes[1..]);
      var hex, first := HexBytes(bytes), HexByte(bytes[0]);
      assert hex == first + HexBytes(bytes[1..]) && hex[0] == first[0] && hex[1] == first[1];
      assert hex[2..] == HexBytes(bytes[1..]);
      assert [bytes[0]] + bytes[1..] == bytes;
    }
  }

  // ---------------------------------------------------------------- printing and loading

  function PrintWord(address: nat, word: bv32): Line { Line(address, HexBytes(Bytes4(word))) }

  /** The image printed in the order of a listing of its addresses. */
  function Print(image: Image, addresses: seq<nat>): (lines: seq<Line>)
    requires forall a :: a in addresses ==> a in image
    ensures |lines| == |addresses|
    ensures forall k :: 0 <= k < |lines| ==> lines[k] == PrintWord(addresses[k], image[addresses[k]])
  {
    seq(|addresses|, k requires 0 <= k < |addresses| => PrintWord(addresses[k], image[addresses[k]]))
  }

  predicate SegmentOk(base: nat, size: nat, line: Line) {
    var address := line.address;
    |line.bytes| % 2 == 0 && base <= address && address - base <= size && |line.bytes| / 2 <= size - (address - base)
  }

  /** The bytes after one line is loaded. */
  function LoadLine(base: nat, data: seq<bv8>, line: Line): (r: Option<seq<bv8>>)
    ensures r.Some? ==> |r.value| == |data|
  {
    if !SegmentOk(base, |data|, line) then None
    else
      var bytes :- Decoded(line.bytes);
      Some(Put(data, line.address - base, bytes, seq(|bytes|, _ => true)))
  }

  /** The bytes after the first n lines; none when one of them does not fit or does not decode. */
  function Loaded(base: nat, data: seq<bv8>, lines: seq<Line>, n: nat): (r: Option<seq<bv8>>)
    requires n <= |lines|
    ensures r.Some? ==> |r.value| == |data|
  {
    if n == 0 then Some(data)
    else
      var before :- Loaded(base, data, lines, n - 1);
      LoadLine(base, before, lines[n - 1])
  }

  /** The bytes after the whole text is loaded. */
  function LoadedText(base: nat, data: seq<bv8>, text: string): Option<seq<bv8>> {
    Loaded(base, data, Lines(text), |Lines(text)|)
  }

  /** `now` is what the first n lines of the text make of `start`, and `unread` is what follows them. */
  predicate LoadedSoFar(base: nat, start: seq<bv8>, text: string, n: nat, unread: string, now: seq<bv8>) {
    && n <= |Lines(text)| && Lines(text)[n..] == Lines(unread)
    && Loaded(base, start, Lines(text), n) == Some(now)
  }

  lemma LoadedNext(base: nat, start: seq<bv8>, text: string, n: nat, unread: string, now: seq<bv8>)
    requires LoadedSoFar(base, start, text, n, unread, now) && ScanLine(unread).Some?
    ensures var (line, rest) := ScanLine(unread).value;
            if LoadLine(base, now, line).Some?
            then LoadedSoFar(base, start, text, n + 1, rest, LoadLine(base, now, line).value)
            else LoadedText(base, start, text).None?
  {
    var lines := Lines(text);
    OneMoreRead(lines, n, unread);
    assert Loaded(base, start, lines, n + 1) == LoadLine(base, now, lines[n]);
    if LoadLine(base, now, lines[n]).None? { StaysOut(base, start, lines, n + 1, |lines|); }
  }

  lemma LoadedAll(base: nat, start: seq<bv8>, text: string, n: nat, unread: string, now: seq<bv8>)
    requires LoadedSoFar(base, start, text, n, unread, now) && ScanLine(unread).None?
    ensures LoadedText(base, start, text) == Some(now)
  {
    assert Lines(text)[n..] == [];
  }

  lemma LoadedNone(base: nat, start: seq<bv8>, text: string)
    ensures LoadedSoFar(base, start, text, 0, text, start)
  {
  }

  /** The loader: line by line, byte by byte, until the stream has no more lines or something is wrong. */
  method Load(mem: Memory, text: string) returns (ok: bool)
    modifies mem.data
    ensures ok == LoadedText(mem.base, old(mem.data[..]), text).Some?
    ensures ok ==> LoadedText(mem.base, old(mem.data[..]), text) == Some(mem.data[..])
  {
    ghost var start, n := mem.data[..], 0;
    var unread := text;
    var next := ScanLine(unread);
    LoadedNone(mem.base, start, text);
    while next.Some?
      invariant next == ScanLine(unread) && LoadedSoFar(mem.base, start, text, n, unread, mem.data[..])
      decreases |unread|
    {
      LoadedNext(mem.base, start, text, n, unread, mem.data[..]);
      ok := CopySegment(mem, next.value.0);
      if !ok { return; }
      unread, n := next.value.1, n + 1;
      next := ScanLine(unread);
    }
    ok := true;
    LoadedAll(mem.base, start, text, n, unread, mem.data[..]);
  }

  /** The line that is read next, and those behind it. */
  lemma OneMoreRead(lines: seq<Line>, n: nat, unread: string)
    requires n <= |lines| && lines[n..] == Lines(unread) && ScanLine(unread).Some?
    ensures n < |lines| && lines[n] == ScanLine(unread).value.0 && lines[n + 1..] == Lines(ScanLine(unread).value.1)
  {
    var next := ScanLine(unread).value;
    assert lines[n..] == [next.0] + Lines(next.1);
    assert lines[n..][0] == lines[n] && lines[n..][1..] == lines[n + 1..];
  }

  method CopySegment(mem: Memory, line: Line) returns (ok: bool)
    modifies mem.data
    ensures ok == LoadLine(mem.base, old(mem.data[..]), line).Some?
    ensures ok ==> LoadLine(mem.base, old(mem.data[..]), line) == Some(mem.data[..])
  {
    ok := SegmentOk(mem.base, mem.data.Length, line);
    if !ok { return; }
    var start := line.address - mem.base;
    ok := CopyBytes(mem, start, line.bytes);
    if ok {
      PutsAll(old(mem.data[..]), mem.data[..], start, Decoded(line.bytes).value);
    }
  }

  /** Writes the decoded bytes until a pair stands for none. */
  method CopyBytes(mem: Memory, start: nat, hex: string) returns (ok: bool)
    requires start + |hex| / 2 <= mem.data.Length
    modifies mem.data
    ensures ok == Decoded(hex).Some?
    ensures ok ==> forall k :: 0 <= k < mem.data.Length ==>
              mem.data[k] == if start <= k < start + |hex| / 2 then Decoded(hex).value[k - start] else old(mem.data[k])
  {
    ghost var bytes := Decoded(hex);
    var i := 0;
    while i < |hex| / 2
      invariant 0 <= i <= |hex| / 2
      invariant bytes.Some? ==> forall k :: 0 <= k < mem.data.Length ==>
                  mem.data[k] == if start <= k < start + i then bytes.value[k - start] else old(mem.data[k])
      invariant AllPairs(hex, i)
    {
      DecodedAt(hex, i);
      var byte := ByteFrom(hex[2 * i], hex[2 * i + 1]);
      if byte.None? { return false; }
      mem.data[start + i] := byte.value;
      i := i + 1;
    }
    ok := true;
    PairsDecode(hex);
  }

  /** The first n pairs stand for bytes. */
  predicate AllPairs(hex: string, n: nat)
    requires n <= |hex| / 2
  {
    forall i | 0 <= i < n :: PairOk(hex, i)
  }

  predicate PairOk(hex: string, i: nat)
    requires i < |hex| / 2
  {
    ByteFrom(hex[2 * i], hex[2 * i + 1]).Some?
  }

  lemma {:induction false} PairsDecode(hex: string)
    requires AllPairs(hex, |hex| / 2)
    ensures Decoded(hex).Some?
  {
    if |hex| >= 2 {
      assert PairOk(hex, 0);
      forall i | 0 <= i < |hex[2..]| / 2 ensures PairOk(hex[2..], i) { assert PairOk(hex, i + 1); }
      PairsDecode(hex[2..]);
    }
  }

  lemma PutsAll(before: seq<bv8>, after: seq<bv8>, start: nat, bytes: seq<bv8>)
    requires |before| == |after| && start + |bytes| <= |after|
    requires forall k :: 0 <= k < |after| ==>
               after[k] == if start <= k < start + |bytes| then bytes[k - start] else before[k]
    ensures after == Put(before, start, bytes, seq(|bytes|, _ => true))
  {
  }

  lemma {:induction false} StaysOut(base: nat, data: seq<bv8>, lines: seq<Line>, n: nat, m: nat)
    requires n <= m <= |lines| && Loaded(base, data, lines, n).None?
    ensures Loaded(base, data, lines, m).None?
  {
    if n < m { StaysOut(base, data, lines, n, m - 1); }
  }

  // ---------------------------------------------------------------- the round trip

  lemma PrintedWord(base: nat, data: seq<bv8>, address: nat, word: bv32)
    ensures LoadLine(base, data, PrintWord(address, word))
            == if base <= address && address + 4 <= base + |data|
               then Some(Put(data, address - base, Bytes4(word), AllLanes)) else None
  {
    BytesRoundTrip(Bytes4(word));
    assert seq(4, _ => true) == AllLanes;
  }

  predicate AddressesApart(addresses: seq<nat>, j: nat, k: nat)
    requires j < k < |addresses|
  {
    addresses[j] != addresses[k]
  }

  predicate Listed(image: Image, addresses: seq<nat>) {
    && (forall a :: a in addresses ==> a in image && a % 4 == 0)
    && (forall j, k {:trigger AddressesApart(addresses, j, k)} :: 0 <= j < k < |addresses| ==>
          AddressesApart(addresses, j, k))
  }

  predicate FitsAt(base: nat, size: nat, addresses: seq<nat>, k: nat)
    requires k < |addresses|
  {
    base <= addresses[k] && addresses[k] + 4 <= base + size
  }

  predicate AllFit(base: nat, size: nat, addresses: seq<nat>) {
    forall k {:trigger FitsAt(base, size, addresses, k)} :: 0 <= k < |addresses| ==> FitsAt(base, size, addresses, k)
  }

  predicate PrintedAt(image: Image, addresses: seq<nat>, lines: seq<Line>, k: nat)
    requires k < |addresses| == |lines|
  {
    addresses[k] in image && lines[k] == PrintWord(addresses[k], image[addresses[k]])
  }

  /** The lines of a printed image. */
  predicate Printed(image: Image, addresses: seq<nat>, lines: seq<Line>) {
    && |addresses| == |lines|
    && forall k {:trigger PrintedAt(image, addresses, lines, k)} :: 0 <= k < |lines| ==>
         PrintedAt(image, addresses, lines, k)
  }

  /** The first n listed words are read back from their addresses. */
  predicate ReadsBack(base: nat, data: seq<bv8>, image: Image, addresses: seq<nat>, n: nat)
    requires n <= |addresses| && forall a :: a in addresses ==> a in image
  {
    forall k {:trigger ReadAt(base, data, image, addresses, k)} :: 0 <= k < n ==>
      ReadAt(base, data, image, addresses, k)
  }

  /** The k-th listed word is read back from its address. */
  predicate ReadAt(base: nat, data: seq<bv8>, image: Image, addresses: seq<nat>, k: nat)
    requires k < |addresses| && addresses[k] in image
  {
    Fetch(base, data, addresses[k]) == Ok(image[addresses[k]])
  }

  lemma OneMoreWord(base: nat, data: seq<bv8>, image: Image, addresses: seq<nat>, n: nat, after: seq<bv8>)
    requires Listed(image, addresses) && AllFit(base, |data|, addresses) && n < |addresses|
    requires ReadsBack(base, data, image, addresses, n)
    requires after == Put(data, addresses[n] - base, Bytes4(image[addresses[n]]), AllLanes)
    ensures ReadsBack(base, after, image, addresses, n + 1)
  {
    forall k | 0 <= k < n + 1 ensures ReadAt(base, after, image, addresses, k) {
      assert k < n ==> ReadAt(base, data, image, addresses, k) && AddressesApart(addresses, k, n);
      assert FitsAt(base, |data|, addresses, k) && FitsAt(base, |data|, addresses, n);
      OtherWord(base, data, addresses[n], image[addresses[n]], addresses[k], after);
    }
  }

  lemma OtherWord(base: nat, data: seq<bv8>, address: nat, word: bv32, other: nat, after: seq<bv8>)
    requires InBounds(base, |data|, address) && InBounds(base, |data|, other)
    requires after == Put(data, address - base, Bytes4(word), AllLanes)
    ensures Fetch(base, after, other) == if other == address then Ok(word) else Fetch(base, data, other)
  {
    PutFetch(base, data, address, word, other);
  }

  lemma LoadPrinted(base: nat, data: seq<bv8>, lines: seq<Line>, n: nat, before: seq<bv8>, address: nat, word: bv32)
    requires n < |lines| && Loaded(base, data, lines, n) == Some(before)
             && lines[n] == PrintWord(address, word)
    requires base <= address && address + 4 <= base + |data|
    ensures Loaded(base, data, lines, n + 1) == Some(Put(before, address - base, Bytes4(word), AllLanes))
  {
    PrintedWord(base, before, address, word);
  }

  /** The bytes after line n is loaded on top of `before`. */
  function WithWord(base: nat, before: seq<bv8>, image: Image, address: nat): seq<bv8>
    requires address in image && base <= address
  {
    Put(before, address - base, Bytes4(image[address]), AllLanes)
  }

  lemma LoadsOneMore(base: nat, data: seq<bv8>, image: Image, addresses: seq<nat>, lines: seq<Line>, n: nat,
                     before: seq<bv8>)
    requires AllFit(base, |data|, addresses) && n < |addresses| && |before| == |data|
    requires Printed(image, addresses, lines) && Loaded(base, data, lines, n) == Some(before)
    ensures addresses[n] in image && base <= addresses[n]
    ensures Loaded(base, data, lines, n + 1) == Some(WithWord(base, before, image, addresses[n]))
  {
    assert PrintedAt(image, addresses, lines, n) && FitsAt(base, |data|, addresses, n);
    LoadPrinted(base, data, lines, n, before, addresses[n], image[addresses[n]]);
  }

  lemma ReadsOneMore(base: nat, before: seq<bv8>, image: Image, addresses: seq<nat>, n: nat)
    requires Listed(image, addresses) && AllFit(base, |before|, addresses) && n < |addresses|
    requires ReadsBack(base, before, image, addresses, n) && base <= addresses[n]
    ensures ReadsBack(base, WithWord(base, before, image, addresses[n]), image, addresses, n + 1)
  {
    OneMoreWord(base, before, image, addresses, n, WithWord(base, before, image, addresses[n]));
  }

  /** The first n lines are loaded and their words are read back. */
  predicate BackAfter(base: nat, data: seq<bv8>, image: Image, addresses: seq<nat>, lines: seq<Line>, n: nat) {
    && n <= |lines| && n <= |addresses| && (forall a :: a in addresses ==> a in image)
    && Loaded(base, data, lines, n).Some? && ReadsBack(base, Loaded(base, data, lines, n).value, image, addresses, n)
  }

  lemma BackAfterOneMore(base: nat, data: seq<bv8>, image: Image, addresses: seq<nat>, lines: seq<Line>, n: nat)
    requires Listed(image, addresses) && AllFit(base, |data|, addresses) && n < |addresses|
    requires Printed(image, addresses, lines) && BackAfter(base, data, image, addresses, lines, n)
    ensures BackAfter(base, data, image, addresses, lines, n + 1)
  {
    var before := Loaded(base, data, lines, n).value;
    LoadsOneMore(base, data, image, addresses, lines, n, before);
    ReadsOneMore(base, before, image, addresses, n);
  }

  lemma NoneBack(base: nat, data: seq<bv8>, image: Image, addresses: seq<nat>, lines: seq<Line>)
    requires Listed(image, addresses)
    ensures BackAfter(base, data, image, addresses, lines, 0)
  {
  }

  ghost function BackStages(base: nat, data: seq<bv8>, image: Image, addresses: seq<nat>, lines: seq<Line>): iset<nat> {
    iset n: nat | BackAfter(base, data, image, addresses, lines, n)
  }

  lemma BackIsKept(base: nat, data: seq<bv8>, image: Image, addresses: seq<nat>, lines: seq<Line>)
    requires Listed(image, addresses) && AllFit(base, |data|, addresses) && Printed(image, addresses, lines)
    ensures var back := BackStages(base, data, image, addresses, lines);
            forall n: nat | n < |addresses| && n in back :: n + 1 in back
  {
    var back := BackStages(base, data, image, addresses, lines);
    forall n: nat | n < |addresses| && n in back ensures n + 1 in back {
      BackAfterOneMore(base, data, image, addresses, lines, n);
    }
  }

  lemma PrintRoundTrip(base: nat, data: seq<bv8>, image: Image, addresses: seq<nat>, lines: seq<Line>)
    requires Listed(image, addresses) && AllFit(base, |data|, addresses) && lines == Print(image, addresses)
    ensures BackAfter(base, data, image, addresses, lines, |addresses|)
  {
    PrintIsPrinted(image, addresses);
    NoneBack(base, data, image, addresses, lines);
    BackIsKept(base, data, image, addresses, lines);
    EveryStage(BackStages(base, data, image, addresses, lines), |addresses|);
  }

  lemma {:induction false} PairsAreSolid(bytes: seq<bv8>)
    ensures forall k | 0 <= k < |HexBytes(bytes)| :: NotBlank(HexBytes(bytes)[k])
  {
    if bytes != [] {
      PairsAreSolid(bytes[1..]);
      PairIsSolid(bytes[0]);
    }
  }

  lemma PairIsSolid(b: bv8)
    ensures NotBlank(HexByte(b)[0]) && NotBlank(HexByte(b)[1])
  {
    DigitValue((b as nat) / 16);
    DigitValue((b as nat) % 16);
  }

  lemma WordIsPrintable(address: nat, word: bv32)
    requires address < TwoTo64
    ensures Printable(PrintWord(address, word))
  {
    PairsAreSolid(Bytes4(word));
  }

  /** The text of an image in 64-bit addresses is read back line by line. */
  lemma PrintIsRead(image: Image, addresses: seq<nat>, lines: seq<Line>)
    requires (forall a :: a in addresses ==> a in image) && lines == Print(image, addresses)
    requires forall k | 0 <= k < |addresses| :: addresses[k] < TwoTo64
    ensures Lines(Text(lines)) == lines
  {
    forall k | 0 <= k < |lines| ensures Printable(lines[k]) { WordIsPrintable(addresses[k], image[addresses[k]]); }
    TextRoundTrip(lines);
  }

  /** A RAM in 64-bit addresses, and the text of an image that fits it, printed in some order. */
  predicate PrintedFor(base: nat, size: nat, image: Image, addresses: seq<nat>, text: string) {
    && base + size <= TwoTo64 && Listed(image, addresses) && AllFit(base, size, addresses)
    && text == Text(Print(image, addresses))
  }

  /** A printed image whose words lie in the RAM is loaded completely, and every word is then read
      back from its address, whatever order the words were printed in. */
  lemma ImageRoundTrip(base: nat, data: seq<bv8>, image: Image, addresses: seq<nat>, text: string)
    requires PrintedFor(base, |data|, image, addresses, text)
    ensures LoadedText(base, data, text).Some?
    ensures ReadsBack(base, LoadedText(base, data, text).value, image, addresses, |addresses|)
  {
    var lines := Print(image, addresses);
    forall k | 0 <= k < |addresses| ensures addresses[k] < TwoTo64 { assert FitsAt(base, |data|, addresses, k); }
    PrintIsRead(image, addresses, lines);
    PrintRoundTrip(base, data, image, addresses, lines);
  }

  lemma PrintIsPrinted(image: Image, addresses: seq<nat>)
    requires forall a :: a in addresses ==> a in image
    ensures Printed(image, addresses, Print(image, addresses))
  {
  }

  const AllLanes := [true, true, true, true]

  lemma PutSlice(data: seq<bv8>, start: nat, bytes: seq<bv8>, other: nat)
    requires |bytes| == 4 && start + 4 <= |data| && other + 4 <= |data|
    requires start == other || start + 4 <= other || other + 4 <= start
    ensures Put(data, start, bytes, AllLanes)[other..other + 4]
            == if other == start then bytes else data[other..other + 4]
  {
    var after := Put(data, start, bytes, AllLanes);
    assert |after[other..other + 4]| == 4;
    forall i | 0 <= i < 4 ensures after[other..other + 4][i] == if other == start then bytes[i] else data[other + i] {
      assert after[other + i] == PutByte(data, start, bytes, AllLanes, other + i);
    }
  }

  lemma FetchIs(base: nat, data: seq<bv8>, address: nat, bytes: seq<bv8>)
    requires InBounds(base, |data|, address) && |bytes| == 4 && data[address - base..address - base + 4] == bytes
    ensures Fetch(base, data, address) == Ok(Word4(bytes))
  {
  }

  lemma PutFetch(base: nat, data: seq<bv8>, address: nat, word: bv32, other: nat)
    requires InBounds(base, |data|, address) && InBounds(base, |data|, other)
    ensures Fetch(base, Put(data, address - base, Bytes4(word), AllLanes), other)
            == if other == address then Ok(word) else Fetch(base, data, other)
  {
    var after := Put(data, address - base, Bytes4(word), AllLanes);
    PutSlice(data, address - base, Bytes4(word), other - base);
    FetchIs(base, after, other, after[other - base..other - base + 4]);
    FetchIs(base, data, other, data[other - base..other - base + 4]);
    WordOfBytes(word);
  }

  // ---------------------------------------------------------------- windows of the loaded RAM

  /** The RAM holds these words from an address on. */
  predicate HoldsWord(base: nat, data: seq<bv8>, start: nat, words: seq<bv32>, i: nat)
    requires i < |words|
  {
    Fetch(base, data, start + 4 * i) == Ok(words[i])
  }

  predicate HoldsWords(base: nat, data: seq<bv8>, start: nat, words: seq<bv32>) {
    forall i {:trigger HoldsWord(base, data, start, words, i)} :: 0 <= i < |words| ==>
      HoldsWord(base, data, start, words, i)
  }

  /** The words at an address; none when one of them is out of bounds. */
  function WordsAt(base: nat, data: seq<bv8>, start: nat, count: nat): (r: Result<seq<bv32>>)
    ensures r.Ok? ==> |r.value| == count
  {
    if count == 0 then Ok([])
    else
      var before := WordsAt(base, data, start, count - 1);
      var last := Fetch(base, data, start + 4 * (count - 1));
      if before.Ok? && last.Ok? then Ok(before.value + [last.value]) else Err
  }

  /** What the host prints for a window: the hash of the words in it. */
  function HostHash(base: nat, data: seq<bv8>, start: nat, count: nat): Result<bv32> {
    var words := WordsAt(base, data, start, count);
    if words.Ok? then Ok(Fnv(words.value)) else Err
  }

  lemma {:induction false} HeldWords(base: nat, data: seq<bv8>, start: nat, words: seq<bv32>)
    requires HoldsWords(base, data, start, words)
    ensures WordsAt(base, data, start, |words|) == Ok(words)
  {
    if words != [] {
      var last := |words| - 1;
      assert HoldsWord(base, data, start, words, last);
      assert words[..last] + words[last..] == words;
      HoldsPrefix(base, data, start, words[..last], words[last..]);
      HeldWords(base, data, start, words[..last]);
      assert words[..last] + [words[last]] == words;
    }
  }

  lemma {:induction false} NoWords(base: nat, data: seq<bv8>, start: nat, n: nat, count: nat)
    requires n < count && Fetch(base, data, start + 4 * n).Err?
    ensures WordsAt(base, data, start, count).Err?
  {
    if n < count - 1 { NoWords(base, data, start, n, count - 1); }
  }

  lemma WordsOneMore(base: nat, data: seq<bv8>, start: nat, words: seq<bv32>, last: bv32)
    requires WordsAt(base, data, start, |words|) == Ok(words) && Fetch(base, data, start + 4 * |words|) == Ok(last)
    ensures WordsAt(base, data, start, |words| + 1) == Ok(words + [last])
  {
  }

  lemma FoldOneMore<H, B>(hash: Hash<H, B>, basis: H, words: seq<bv32>, last: bv32)
    ensures Fold(hash, basis, words + [last]) == Step(hash, Fold(hash, basis, words), last, 4)
  {
    assert (words + [last])[..|words|] == words;
  }

  method HashWindow<H, B>(mem: Memory, start: nat, count: nat, hash: Hash<H, B>, basis: H) returns (r: Result<H>)
    ensures var words := WordsAt(mem.base, mem.data[..], start, count);
            r == if words.Ok? then Ok(Fold(hash, basis, words.value)) else Err
  {
    var digest := basis;
    ghost var words: seq<bv32> := [];
    var index := 0;
    while index < count
      invariant 0 <= index <= count && WordsAt(mem.base, mem.data[..], start, index) == Ok(words)
      invariant digest == Fold(hash, basis, words)
    {
      var word := mem.Read(start + 4 * index);
      if word.Err? {
        NoWords(mem.base, mem.data[..], start, index, count);
        return Err;
      }
      WordsOneMore(mem.base, mem.data[..], start, words, word.value);
      FoldOneMore(hash, basis, words, word.value);
      digest := HashWord(hash, digest, word.value);
      words, index := words + [word.value], index + 1;
    }
    return Ok(digest);
  }

  /** The host's hash of a window, word by word from the RAM. */
  method WindowHash(mem: Memory, start: nat, count: nat) returns (r: Result<bv32>)
    ensures r == HostHash(mem.base, mem.data[..], start, count)
  {
    r := HashWindow(mem, start, count, Hash(FnvByte, FnvPart), FnvBasis);
  }

  /** The host's hash of a window is the number that the generator computes for these words. */
  predicate SameHash(base: nat, data: seq<bv8>, start: nat, words: seq<bv32>) {
    var host := HostHash(base, data, start, |words|);
    host.Ok? && Widen(host.value) == PyFnv(words)
  }

  lemma WindowHashAgrees(base: nat, data: seq<bv8>, start: nat, words: seq<bv32>)
    requires HoldsWords(base, data, start, words)
    ensures SameHash(base, data, start, words)
  {
    HeldWords(base, data, start, words);
    HashesAgree(words);
  }

  // ---------------------------------------------------------------- the whole way

  predicate FullListing(image: Image, addresses: seq<nat>) {
    Listed(image, addresses) && forall a :: a in image ==> a in addresses
  }

  lemma BlockReaches(blocks: seq<Block>, image: Image, base: nat, loaded: seq<bv8>, addresses: seq<nat>, block: Block)
    requires AllApart(blocks) && block in blocks && image == Laid(blocks) && FullListing(image, addresses)
    requires ReadsBack(base, loaded, image, addresses, |addresses|)
    ensures HoldsWords(base, loaded, block.base, block.words)
  {
    forall i | 0 <= i < |block.words| ensures HoldsWord(base, loaded, block.base, block.words, i) {
      var a := block.base + 4 * i;
      LaidIs(blocks, a);
      assert Covers(block, a) && WordAt(block, a) == block.words[i];
      var k :| 0 <= k < |addresses| && addresses[k] == a;
      assert ReadAt(base, loaded, image, addresses, k);
    }
  }

  lemma HoldsPrefix(base: nat, data: seq<bv8>, start: nat, words: seq<bv32>, more: seq<bv32>)
    requires HoldsWords(base, data, start, words + more)
    ensures HoldsWords(base, data, start, words)
  {
    forall i | 0 <= i < |words| ensures HoldsWord(base, data, start, words, i) {
      assert HoldsWord(base, data, start, words + more, i);
    }
  }

  lemma CaseBlocks(b: Batch, k: nat)
    requires k < |b.cases|
    ensures CodeBlock(b, k) in AllBlocks(b) && DataBlock(b, k) in AllBlocks(b)
  {
  }

  /** The RAM holds the case's slot and its data window. */
  predicate CaseHeld(b: Batch, base: nat, loaded: seq<bv8>, k: nat)
    requires k < |b.cases|
  {
    && HoldsWords(base, loaded, Slot(b, k), SlotWords(b, k))
    && HoldsWords(base, loaded, WindowBase(b, k), b.cases[k].window)
  }

  /** The host's hashes of the case's program and data windows are the numbers that the generator
      computes from the words themselves. */
  predicate CaseAgrees(b: Batch, base: nat, loaded: seq<bv8>, k: nat)
    requires k < |b.cases|
  {
    && SameHash(base, loaded, Slot(b, k) + 8, b.cases[k].words)
    && SameHash(base, loaded, WindowBase(b, k), b.cases[k].window)
  }

  /** From the batch to the host: when no window meets the code and the image fits the RAM, the
      loaded RAM holds every case's slot and data window. */
  lemma BatchReachesHost(b: Batch, image: Image, base: nat, data: seq<bv8>, addresses: seq<nat>, text: string,
                         k: nat)
    requires WindowsOk(b) && CodeClear(b) && k < |b.cases| && image == Laid(AllBlocks(b))
    requires PrintedFor(base, |data|, image, addresses, text) && FullListing(image, addresses)
    ensures LoadedText(base, data, text).Some?
    ensures CaseHeld(b, base, LoadedText(base, data, text).value, k)
  {
    ImageRoundTrip(base, data, image, addresses, text);
    var loaded := LoadedText(base, data, text).value;
    BlocksApart(b);
    CaseBlocks(b, k);
    BlockReaches(AllBlocks(b), image, base, loaded, addresses, CodeBlock(b, k));
    BlockReaches(AllBlocks(b), image, base, loaded, addresses, DataBlock(b, k));
    HoldsPrefix(base, loaded, WindowBase(b, k), b.cases[k].window, [DoneSentinel]);
  }

  lemma HoldsBehind(base: nat, data: seq<bv8>, start: nat, preamble: seq<bv32>, words: seq<bv32>, rest: seq<bv32>)
    requires HoldsWords(base, data, start, preamble + words + rest) && |preamble| == 2
    ensures HoldsWords(base, data, start + 8, words)
  {
    var all := preamble + words + rest;
    var from := start + 8;
    forall i | 0 <= i < |words| ensures HoldsWord(base, data, from, words, i) {
      var j := i + 2;
      assert all[j] == words[i] && start + 4 * j == from + 4 * i;
      assert HoldsWord(base, data, start, all, j);
    }
  }

  /** The words of a slot: a preamble of two, the program, and the rest. */
  lemma SlotSplit(b: Batch, k: nat) returns (preamble: seq<bv32>, rest: seq<bv32>)
    requires k < |b.cases|
    ensures |preamble| == 2 && SlotWords(b, k) == preamble + b.cases[k].words + rest
  {
    preamble, rest := Preamble(b.enc, WindowBase(b, k)), [b.enc.store] + seq(SledWords, _ => b.enc.nop);
  }

  /** A slot holds the program behind its preamble. */
  lemma ProgramHeld(b: Batch, base: nat, data: seq<bv8>, k: nat, at: nat)
    requires k < |b.cases| && HoldsWords(base, data, at, SlotWords(b, k))
    ensures HoldsWords(base, data, at + 8, b.cases[k].words)
  {
    var preamble, rest := SlotSplit(b, k);
    HoldsBehind(base, data, at, preamble, b.cases[k].words, rest);
  }

  lemma CaseHashes(b: Batch, base: nat, loaded: seq<bv8>, k: nat)
    requires k < |b.cases| && CaseHeld(b, base, loaded, k)
    ensures CaseAgrees(b, base, loaded, k)
  {
    ProgramHeld(b, base, loaded, k, Slot(b, k));
    WindowHashAgrees(base, loaded, Slot(b, k) + 8, b.cases[k].words);
    WindowHashAgrees(base, loaded, WindowBase(b, k), b.cases[k].window);
  }

  /** For every case the host's hashes of the program window and of the data window are the numbers
      that the generator computes from the words themselves. */
  lemma CaseHashesAgree(b: Batch, image: Image, base: nat, data: seq<bv8>, addresses: seq<nat>, text: string,
                        k: nat)
    requires WindowsOk(b) && CodeClear(b) && k < |b.cases| && image == Laid(AllBlocks(b))
    requires PrintedFor(base, |data|, image, addresses, text) && FullListing(image, addresses)
    ensures LoadedText(base, data, text).Some?
    ensures CaseAgrees(b, base, LoadedText(base, data, text).value, k)
  {
    BatchReachesHost(b, image, base, data, addresses, text, k);
    CaseHashes(b, base, LoadedText(base, data, text).value, k);
  }
}
