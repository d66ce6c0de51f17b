/** FNV-1a over 32-bit words in little-endian byte order, as the host and as the generator compute it.

    The fold is written once, for any kind of digest.  The host's step wraps at 32 bits; the
    generator's multiplies whole numbers, below 2^57 here, and masks the product. */
module Hashes {

  /** A way to hash: what a digest becomes with one more byte, and byte i of a word. */
  datatype Hash<!H, !B> = Hash(byte: (H, B) -> H, part: (bv32, nat) -> B)

  /** The digest after the first n bytes of a word. */
  function Step<H, B>(hash: Hash<H, B>, digest: H, word: bv32, n: nat): H {
    if n == 0 then digest else hash.byte(Step(hash, digest, word, n - 1), hash.part(word, n - 1))
  }

  function Fold<H, B>(hash: Hash<H, B>, basis: H, words: seq<bv32>): H {
    if words == [] then basis else Step(hash, Fold(hash, basis, words[..|words| - 1]), words[|words| - 1], 4)
  }

  method HashWord<H, B>(hash: Hash<H, B>, digest: H, word: bv32) returns (next: H)
    ensures next == Step(hash, digest, word, 4)
  {
    next := digest;
    var i := 0;
    while i < 4
      invariant 0 <= i <= 4 && next == Step(hash, digest, word, i)
    {
      next := hash.byte(next, hash.part(word, i));
      i := i + 1;
    }
  }

  method HashWords<H, B>(hash: Hash<H, B>, basis: H, words: seq<bv32>) returns (digest: H)
    ensures digest == Fold(hash, basis, words)
  {
    digest := basis;
    var n := 0;
    while n < |words|
      invariant 0 <= n <= |words| && digest == Fold(hash, basis, words[..n])
    {
      assert words[..n + 1][..n] == words[..n];
      digest := HashWord(hash, digest, words[n]);
      n := n + 1;
    }
    assert words[..n] == words;
  }

  // ---------------------------------------------------------------- two hashes that agree

  /** `wide` does to widened digests and bytes what `hash` does to them unwidened. */
  ghost predicate Widens<H(!new), B(!new), G, C>(hash: Hash<H, B>, wide: Hash<G, C>, widen: H -> G, widenByte: B -> C) {
    && (forall h, b :: wide.byte(widen(h), widenByte(b)) == widen(hash.byte(h, b)))
    && (forall w, i :: wide.part(w, i) == widenByte(hash.part(w, i)))
  }

  lemma {:induction false} StepsAgree<H(!new), B(!new), G, C>(hash: Hash<H, B>, wide: Hash<G, C>, widen: H -> G,
                                                              widenByte: B -> C, h: H, w: bv32, n: nat)
    requires Widens(hash, wide, widen, widenByte)
    ensures Step(wide, widen(h), w, n) == widen(Step(hash, h, w, n))
  {
    if n > 0 { StepsAgree(hash, wide, widen, widenByte, h, w, n - 1); }
  }

  lemma {:induction false} FoldsAgree<H(!new), B(!new), G, C>(hash: Hash<H, B>, wide: Hash<G, C>, widen: H -> G,
                                                              widenByte: B -> C, basis: H, words: seq<bv32>)
    requires Widens(hash, wide, widen, widenByte)
    ensures Fold(wide, widen(basis), words) == widen(Fold(hash, basis, words))
  {
    if words != [] {
      var last := |words| - 1;
      FoldsAgree(hash, wide, widen, widenByte, basis, words[..last]);
      StepsAgree(hash, wide, widen, widenByte, Fold(hash, basis, words[..last]), words[last], 4);
    }
  }

  // ---------------------------------------------------------------- the host's and the generator's

  function FnvByte(digest: bv32, b: bv32): bv32 { (digest ^ b) * 16777619 }

  function FnvPart(w: bv32, i: nat): bv32 {
    if i == 0 then w & 0xff
    else if i == 1 then (w >> 8) & 0xff
    else if i == 2 then (w >> 16) & 0xff
    else (w >> 24) & 0xff
  }

  function PyByte(digest: bv64, b: bv64): bv64 { ((digest ^ b) * 16777619) & 0xffff_ffff }

  function PyPart(word: bv32, i: nat): bv64 {
    var w := word as bv64;
    if i == 0 then w & 0xff
    else if i == 1 then (w >> 8) & 0xff
    else if i == 2 then (w >> 16) & 0xff
    else (w >> 24) & 0xff
  }

  const FnvBasis: bv32 := 2166136261
  const PySeed: bv64 := 2166136261

  /** The host's hash of a sequence of words. */
  function Fnv(words: seq<bv32>): bv32 { Fold(Hash(FnvByte, FnvPart), FnvBasis, words) }

  /** The generator's hash of a sequence of words. */
  function PyFnv(words: seq<bv32>): bv64 { Fold(Hash(PyByte, PyPart), PySeed, words) }

  method PyFnv32(words: seq<bv32>) returns (digest: bv64)
    ensures digest == PyFnv(words)
  {
    digest := HashWords(Hash(PyByte, PyPart), PySeed, words);
  }

  function Widen(h: bv32): bv64 { h as bv64 }

  lemma BytesAgree(h: bv32, b: bv32)
    ensures PyByte(h as bv64, b as bv64) == FnvByte(h, b) as bv64
  {
  }

  lemma Part0Agrees(w: bv32)
    ensures (w as bv64) & 0xff == (w & 0xff) as bv64
  {
  }

  lemma Part1Agrees(w: bv32)
    ensures ((w as bv64) >> 8) & 0xff == ((w >> 8) & 0xff) as bv64
  {
  }

  lemma Part2Agrees(w: bv32)
    ensures ((w as bv64) >> 16) & 0xff == ((w >> 16) & 0xff) as bv64
  {
  }

  lemma Part3Agrees(w: bv32)
    ensures ((w as bv64) >> 24) & 0xff == ((w >> 24) & 0xff) as bv64
  {
  }

  lemma PartsAgree(w: bv32, i: nat)
    ensures PyPart(w, i) == Widen(FnvPart(w, i))
  {
    if i == 0 {
      Part0Agrees(w);
    } else if i == 1 {
      Part1Agrees(w);
    } else if i == 2 {
      Part2Agrees(w);
    } else {
      Part3Agrees(w);
    }
  }

  lemma FnvWidens()
    ensures Widens(Hash(FnvByte, FnvPart), Hash(PyByte, PyPart), Widen, Widen)
  {
    forall h, b ensures PyByte(Widen(h), Widen(b)) == Widen(FnvByte(h, b)) { BytesAgree(h, b); }
    forall w, i ensures PyPart(w, i) == Widen(FnvPart(w, i)) { PartsAgree(w, i); }
  }

  /** The two hashes of a sequence of words are one number. */
  lemma HashesAgree(words: seq<bv32>)
    ensures PyFnv(words) == Widen(Fnv(words))
  {
    FnvWidens();
    FoldsAgree(Hash(FnvByte, FnvPart), Hash(PyByte, PyPart), Widen, Widen, FnvBasis, words);
  }
}
