/** The host's byte-addressed RAM and its bounds-checked 32-bit words. */
module Ram {
  import opened Wrappers

  /** The n lowest bits of a byte-enable mask, lane 0 first. */
  function LowLanes(be: bv8, n: nat): (lanes: seq<bool>)
    ensures |lanes| == n
    decreases be, n
  {
    if n == 0 then [] else [be & 1 != 0] + LowLanes(be >> 1, n - 1)
  }

  /** The n lowest bytes of a word, the lowest first. */
  function LowBytes(value: bv32, n: nat): (bytes: seq<bv8>)
    ensures |bytes| == n
    decreases value, n
  {
    if n == 0 then [] else [(value & 0xff) as bv8] + LowBytes(value >> 8, n - 1)
  }

  function Lanes4(be: bv8): (lanes: seq<bool>)
    ensures |lanes| == 4
  {
    LowLanes(be, 4)
  }

  function Bytes4(value: bv32): (bytes: seq<bv8>)
    ensures |bytes| == 4
  {
    LowBytes(value, 4)
  }

  /** The word with these bytes. */
  function Word4(b: seq<bv8>): (value: bv32)
    requires |b| == 4
  {
    Joined(b[0], b[1], b[2], b[3])
  }

  lemma FourBytes(v: bv32, v1: bv32, v2: bv32, v3: bv32)
    requires v >> 8 == v1 && v1 >> 8 == v2 && v2 >> 8 == v3
    ensures Bytes4(v) == [(v & 0xff) as bv8, (v1 & 0xff) as bv8, (v2 & 0xff) as bv8, (v3 & 0xff) as bv8]
  {
    assert LowBytes(v3, 1) == [(v3 & 0xff) as bv8];
    assert LowBytes(v2, 2) == [(v2 & 0xff) as bv8] + LowBytes(v3, 1);
    assert LowBytes(v1, 3) == [(v1 & 0xff) as bv8] + LowBytes(v2, 2);
  }

  function Joined(b0: bv8, b1: bv8, b2: bv8, b3: bv8): bv32 {
    (b0 as bv32) | ((b1 as bv32) << 8) | ((b2 as bv32) << 16) | ((b3 as bv32) << 24)
  }

  lemma JoinedBack(v: bv32, v1: bv32, v2: bv32, v3: bv32)
    requires v >> 8 == v1 && v1 >> 8 == v2 && v2 >> 8 == v3
    ensures Joined((v & 0xff) as bv8, (v1 & 0xff) as bv8, (v2 & 0xff) as bv8, (v3 & 0xff) as bv8) == v
  {
  }

  lemma PartsBack(b0: bv8, b1: bv8, b2: bv8, b3: bv8, v: bv32, v1: bv32, v2: bv32, v3: bv32)
    requires v == Joined(b0, b1, b2, b3) && v >> 8 == v1 && v1 >> 8 == v2 && v2 >> 8 == v3
    ensures (v & 0xff) as bv8 == b0 && (v1 & 0xff) as bv8 == b1 && (v2 & 0xff) as bv8 == b2 && (v3 & 0xff) as bv8 == b3
  {
  }

  /** Bytes and word are two forms of the same value. */
  lemma WordOfBytes(value: bv32)
    ensures Word4(Bytes4(value)) == value
  {
    var v1 := value >> 8;
    var v2 := v1 >> 8;
    var v3 := v2 >> 8;
    FourBytes(value, v1, v2, v3);
    JoinedBack(value, v1, v2, v3);
  }

  lemma BytesOfWord(b: seq<bv8>)
    requires |b| == 4
    ensures Bytes4(Word4(b)) == b
  {
    var value := Word4(b);
    var v1 := value >> 8;
    var v2 := v1 >> 8;
    var v3 := v2 >> 8;
    FourBytes(value, v1, v2, v3);
    PartsBack(b[0], b[1], b[2], b[3], value, v1, v2, v3);
  }

  lemma Lanes4Is(be: bv8)
    ensures Lanes4(be) == [be & 1 != 0, (be >> 1) & 1 != 0, (be >> 2) & 1 != 0, (be >> 3) & 1 != 0]
  {
    var b1, b2, b3 := be >> 1, be >> 2, be >> 3;
    assert b1 >> 1 == b2 && b2 >> 1 == b3;
    assert LowLanes(b3, 1) == [b3 & 1 != 0];
    assert LowLanes(b2, 2) == [b2 & 1 != 0] + LowLanes(b3, 1);
    assert LowLanes(b1, 3) == [b1 & 1 != 0] + LowLanes(b2, 2);
  }

  /** Whether a word access at this address is taken. */
  predicate InBounds(base: nat, size: nat, address: nat) {
    address % 4 == 0 && base <= address && address + 4 <= base + size
  }

  /** The bytes after a masked write; `start` counts from the first byte. */
  function Put(data: seq<bv8>, start: int, bytes: seq<bv8>, lanes: seq<bool>): (r: seq<bv8>)
    requires |bytes| == |lanes|
    ensures |r| == |data|
    ensures forall k :: 0 <= k < |r| ==> r[k] == PutByte(data, start, bytes, lanes, k)
  {
    seq(|data|, k requires 0 <= k < |data| => PutByte(data, start, bytes, lanes, k))
  }

  function PutByte(data: seq<bv8>, start: int, bytes: seq<bv8>, lanes: seq<bool>, k: nat): bv8
    requires k < |data| && |bytes| == |lanes|
  {
    if start <= k < start + |lanes| && lanes[k - start] then bytes[k - start] else data[k]
  }

  /** A word read from the bytes, and the bytes after a masked write of a word. */
  function Fetch(base: nat, bytes: seq<bv8>, address: nat): (r: Result<bv32>)
    ensures r.Ok? <==> InBounds(base, |bytes|, address)
  {
    if InBounds(base, |bytes|, address) then Ok(Word4(bytes[address - base..address - base + 4])) else Err
  }

  function StoreWord(base: nat, bytes: seq<bv8>, address: nat, value: bv32, be: bv8): (r: Result<seq<bv8>>)
    ensures r.Ok? <==> InBounds(base, |bytes|, address)
    ensures r.Ok? ==> |r.value| == |bytes|
  {
    if InBounds(base, |bytes|, address) then Ok(Put(bytes, address - base, Bytes4(value), Lanes4(be))) else Err
  }

  class Memory {
    const base: nat
    const data: array<bv8>

    constructor (base: nat, size: nat)
      ensures this.base == base && fresh(data) && data.Length == size
      ensures forall k :: 0 <= k < size ==> data[k] == 0
    {
      this.base := base;
      this.data := new bv8[size](_ => 0);
    }

    /** A read has every byte of the word in its place, and a refused one reads nothing. */
    method Read(address: nat) returns (r: Result<bv32>)
      ensures r.Ok? <==> InBounds(base, data.Length, address)
      ensures r == Fetch(base, data[..], address)
      ensures r.Ok? ==> Bytes4(r.value) == data[address - base..address - base + 4]
    {
      if address % 4 != 0 || address < base || data.Length < 4 || address - base > data.Length - 4 {
        return Err;
      }
      var start := address - base;
      var bytes := [];
      var i := 0;
      while i < 4
        invariant 0 <= i <= 4
        invariant bytes == data[start..start + i]
      {
        bytes := bytes + [data[start + i]];
        i := i + 1;
      }
      assert bytes == data[..][start..start + 4];
      BytesOfWord(bytes);
      return Ok(Word4(bytes));
    }

    /** A write changes the selected bytes of its word and no others; a refused one changes nothing. */
    method Write(address: nat, value: bv32, be: bv8) returns (ok: bool)
      modifies data
      ensures ok <==> InBounds(base, data.Length, address)
      ensures data[..] == if ok then Put(old(data[..]), address - base, Bytes4(value), Lanes4(be)) else old(data[..])
    {
      if address % 4 != 0 || address < base || data.Length < 4 || address - base > data.Length - 4 {
        return false;
      }
      var start := address - base;
      var bytes, lanes := Bytes4(value), Lanes4(be);
      var i := 0;
      while i < 4
        invariant 0 <= i <= 4
        invariant forall k :: 0 <= k < data.Length ==>
          data[k] == if start <= k < start + i && lanes[k - start] then bytes[k - start] else old(data[k])
      {
        if lanes[i] { data[start + i] := bytes[i]; }
        i := i + 1;
      }
      return true;
    }
  }
}
