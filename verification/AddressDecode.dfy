/** Mask-coded address regions: what the core's decoder matches and what the checks of the derived
    configuration compare. */
module AddressDecode {
  import opened Wrappers
  import opened Division

  // ---------------------------------------------------------------- bits of numbers

  /** Bitwise and, on numbers of any size. */
  function And(x: nat, y: nat): nat {
    if x == 0 || y == 0 then 0 else 2 * And(x / 2, y / 2) + (x % 2) * (y % 2)
  }

  /** Bitwise or, on numbers of any size. */
  function Or(x: nat, y: nat): nat {
    if x == 0 then y else if y == 0 then x else 2 * Or(x / 2, y / 2) + if x % 2 + y % 2 > 0 then 1 else 0
  }

  /** The test for a mask whose one-bits are its lowest bits. */
  predicate Thermometer(mask: nat) { And(mask, mask + 1) == 0 }

  predicate Aligned(base: nat, mask: nat) { And(base, mask) == 0 }

  /** The decoder over n address bits: every bit agrees with the base or is masked. */
  predicate Match(address: nat, base: nat, mask: nat, n: nat) {
    n == 0 || ((mask % 2 == 1 || address % 2 == base % 2) && Match(address / 2, base / 2, mask / 2, n - 1))
  }

  function Pow2(n: nat): nat { if n == 0 then 1 else 2 * Pow2(n - 1) }

  lemma {:induction false} AndSelf(x: nat)
    ensures And(x, x) == x
  {
    if x != 0 { AndSelf(x / 2); }
  }

  lemma {:induction false} AndAtMost(x: nat, y: nat)
    ensures And(x, y) <= x
  {
    if x != 0 && y != 0 { AndAtMost(x / 2, y / 2); }
  }

  /** A thermometer mask is zero or ends in a one-bit over another thermometer mask. */
  lemma ThermometerHalf(mask: nat)
    requires Thermometer(mask) && mask != 0
    ensures mask % 2 == 1 && Thermometer(mask / 2)
  {
    if mask % 2 == 1 {
      assert (mask + 1) / 2 == mask / 2 + 1;
    } else {
      assert (mask + 1) / 2 == mask / 2;
      AndSelf(mask / 2);
    }
  }

  lemma {:induction false} EqualBits(a: nat, b: nat, n: nat)
    requires a < Pow2(n) && b < Pow2(n)
    ensures Match(a, b, 0, n) <==> a == b
  {
    if n > 0 { EqualBits(a / 2, b / 2, n - 1); }
  }

  // ---------------------------------------------------------------- regions

  datatype Region = Region(name: string, base: nat, mask: nat)

  /** The interval the checks use. */
  function Top(r: Region): nat { Or(r.base, r.mask) }

  /** The lowest address the decoder matches: the base with its masked bits cleared. */
  function Bottom(base: nat, mask: nat): (r: nat)
    ensures r <= base
  {
    AndAtMost(base, mask);
    base - And(base, mask)
  }

  /** What the decoder matches is an interval; it starts at the base only if the base is aligned. */
  lemma {:induction false} MatchIs(a: nat, base: nat, mask: nat, n: nat)
    requires Thermometer(mask) && a < Pow2(n) && base < Pow2(n) && mask < Pow2(n)
    ensures Match(a, base, mask, n) <==> Bottom(base, mask) <= a <= Or(base, mask)
  {
    if mask == 0 {
      EqualBits(a, base, n);
    } else {
      ThermometerHalf(mask);
      MatchIs(a / 2, base / 2, mask / 2, n - 1);
      HalvesOfRegion(base, mask);
    }
  }

  lemma HalvesOfRegion(base: nat, mask: nat)
    requires mask % 2 == 1
    ensures Bottom(base, mask) == 2 * Bottom(base / 2, mask / 2)
    ensures Or(base, mask) == 2 * Or(base / 2, mask / 2) + 1
  {
  }

  // ---------------------------------------------------------------- the checks

  /** One region of the configuration text: whether it is enabled, and its values if both are given. */
  datatype Entry = Entry(name: string, enabled: bool, base: Option<nat>, mask: Option<nat>)

  predicate Kept(e: Entry) { e.enabled && e.base.Some? && e.mask.Some? }

  /** The regions of the entries that are enabled and have both values, in the order of the entries. */
  function KeptRegions(entries: seq<Entry>): seq<Region> {
    if entries == [] then []
    else
      var last := entries[|entries| - 1];
      KeptRegions(entries[..|entries| - 1]) + if Kept(last) then [RegionOf(last)] else []
  }

  /** The enabled regions in the order of their names, which is that of the entries; none if a mask is
      not a thermometer code. */
  method EnabledRegions(entries: seq<Entry>) returns (regions: Option<seq<Region>>)
    ensures regions.None? <==> exists k :: 0 <= k < |entries| && Kept(entries[k]) && !Thermometer(entries[k].mask.value)
    ensures regions.Some? ==> regions.value == KeptRegions(entries)
    ensures regions.Some? ==> forall k :: 0 <= k < |regions.value| ==> Thermometer(regions.value[k].mask)
  {
    var found: seq<Region> := [];
    var k := 0;
    while k < |entries|
      invariant 0 <= k <= |entries|
      invariant forall j :: 0 <= j < k && Kept(entries[j]) ==> Thermometer(entries[j].mask.value)
      invariant found == KeptRegions(entries[..k])
      invariant forall j :: 0 <= j < |found| ==> Thermometer(found[j].mask)
    {
      var e := entries[k];
      assert entries[..k + 1][..k] == entries[..k];
      if Kept(e) {
        if And(e.mask.value, e.mask.value + 1) != 0 { return None; }
        found := found + [RegionOf(e)];
      }
      k := k + 1;
    }
    assert entries[..k] == entries;
    return Some(found);
  }

  function RegionOf(e: Entry): Region
    requires Kept(e)
  {
    Region(e.name, e.base.value, e.mask.value)
  }

  /** The collision check between the external region and another one. */
  predicate Apart(ext: Region, r: Region) { ext.base > Top(r) || Top(ext) < r.base }

  predicate AllApart(ext: Region, regions: seq<Region>) {
    forall k :: 0 <= k < |regions| && regions[k].name != ext.name ==> Apart(ext, regions[k])
  }

  predicate Holds(r: Region, address: nat) { r.base <= address <= Top(r) }

  /** The first region that holds the reset vector is the external one. */
  predicate BootsIn(ext: Region, vector: nat, regions: seq<Region>) {
    exists k :: 0 <= k < |regions| && Holds(regions[k], vector) && regions[k].name == ext.name
        && NoneHolds(regions, k, vector)
  }

  predicate NoneHolds(regions: seq<Region>, k: nat, vector: nat)
    requires k <= |regions|
  {
    forall j :: 0 <= j < k ==> !Holds(regions[j], vector)
  }

  /** The derivation's own checks over the enabled regions. */
  method CheckRegions(ext: Region, vector: nat, width: nat, regions: seq<Region>) returns (ok: bool)
    ensures ok <==> Top(ext) < Pow2(width) && AllApart(ext, regions) && BootsIn(ext, vector, regions)
  {
    if Top(ext) >= Pow2(width) { return false; }
    var k := 0;
    while k < |regions|
      invariant 0 <= k <= |regions|
      invariant forall j :: 0 <= j < k && regions[j].name != ext.name ==> Apart(ext, regions[j])
    {
      if regions[k].name != ext.name && !Apart(ext, regions[k]) { return false; }
      k := k + 1;
    }
    k := 0;
    while k < |regions|
      invariant 0 <= k <= |regions|
      invariant NoneHolds(regions, k, vector)
    {
      if Holds(regions[k], vector) { return regions[k].name == ext.name; }
      k := k + 1;
    }
    return false;
  }

  // ---------------------------------------------------------------- what passing them means

  predicate Fits(r: Region, n: nat) { r.base < Pow2(n) && r.mask < Pow2(n) }

  predicate Selects(r: Region, a: nat, n: nat) { Match(a, r.base, r.mask, n) }

  /** Some address selects both regions. */
  ghost predicate Collide(ext: Region, r: Region, n: nat) {
    exists a: nat :: a < Pow2(n) && Selects(ext, a, n) && Selects(r, a, n)
  }

  /** A region that passes the check against an aligned external region collides with it in the
      decoder exactly when clearing the masked bits of its base reaches back into it. */
  lemma CollideIff(ext: Region, r: Region, n: nat)
    requires Thermometer(ext.mask) && Aligned(ext.base, ext.mask) && Fits(ext, n)
    requires Thermometer(r.mask) && Fits(r, n) && Apart(ext, r)
    ensures Collide(ext, r, n) <==> Bottom(r.base, r.mask) <= Top(ext) < r.base
    ensures Aligned(r.base, r.mask) ==> !Collide(ext, r, n)
  {
    if Collide(ext, r, n) {
      var a: nat :| a < Pow2(n) && Selects(ext, a, n) && Selects(r, a, n);
      MatchIs(a, ext.base, ext.mask, n);
      MatchIs(a, r.base, r.mask, n);
    }
    if Bottom(r.base, r.mask) <= Top(ext) < r.base {
      var a: nat := Top(ext);
      OrAtLeast(ext.base, ext.mask);
      OrAtLeast(r.base, r.mask);
      MatchIs(a, ext.base, ext.mask, n);
      MatchIs(a, r.base, r.mask, n);
      assert a < Pow2(n) && Selects(ext, a, n) && Selects(r, a, n);
    }
  }

  lemma {:induction false} OrAtLeast(x: nat, y: nat)
    ensures Or(x, y) >= x
  {
    if x != 0 && y != 0 { OrAtLeast(x / 2, y / 2); }
  }

  /** With aligned bases, passing the checks means that no address selects the external region and
      another one, and that a reset vector inside it selects the external region alone. */
  lemma ChecksAreEnough(ext: Region, vector: nat, regions: seq<Region>, n: nat, k: nat)
    requires Thermometer(ext.mask) && Aligned(ext.base, ext.mask) && Fits(ext, n) && AllApart(ext, regions)
    requires k < |regions| && regions[k].name != ext.name && Holds(ext, vector) && vector < Pow2(n)
    requires Thermometer(regions[k].mask) && Aligned(regions[k].base, regions[k].mask) && Fits(regions[k], n)
    ensures !Collide(ext, regions[k], n)
    ensures Selects(ext, vector, n) && !Selects(regions[k], vector, n)
  {
    CollideIff(ext, regions[k], n);
    MatchIs(vector, ext.base, ext.mask, n);
  }

  // ---------------------------------------------------------------- the values in use

  /** The external region, the reset vector and the address width of the derived configuration. */
  const ExtMem := Region("EXT_MEM", 0xC000_0000, 0x0FFF_FFFF)
  const ResetVector := 0xC000_0000
  const AddressBits := 34

  lemma AndOdd(x: nat, m: nat)
    ensures And(x, 2 * m + 1) == 2 * And(x / 2, m) + x % 2
  {
    assert (2 * m + 1) / 2 == m && (2 * m + 1) % 2 == 1;
  }

  lemma OrOdd(x: nat, m: nat)
    ensures Or(x, 2 * m + 1) == 2 * Or(x / 2, m) + 1
  {
    assert (2 * m + 1) / 2 == m && (2 * m + 1) % 2 == 1;
  }

  lemma ThermometerOdd(m: nat)
    requires Thermometer(m)
    ensures Thermometer(2 * m + 1)
  {
    assert (2 * m + 1) / 2 == m && (2 * m + 2) / 2 == m + 1 && (2 * m + 2) % 2 == 0;
  }

  /** The mask m, a run of one-bits, keeps a remainder. */
  predicate Keeps(b: nat, m: nat) {
    And(b, m) == b % (m + 1) && Or(b, m) == b - b % (m + 1) + m
  }

  lemma KeepsOdd(b: nat, m: nat)
    requires Keeps(b / 2, m)
    ensures Keeps(b, 2 * m + 1)
  {
    AndOdd(b, m);
    OrOdd(b, m);
    ModDouble(b, m + 1);
  }

  lemma KeepsNone(b: nat)
    ensures Keeps(b, 0) && Thermometer(0)
  {
  }

  /** A mask of k one-bits keeps a remainder. */
  lemma {:induction false} MaskIs(b: nat, k: nat)
    ensures Pow2(k) > 0 && Thermometer(Pow2(k) - 1) && Keeps(b, Pow2(k) - 1)
  {
    if k == 0 {
      KeepsNone(b);
    } else {
      var m := Pow2(k - 1) - 1;
      MaskIs(b / 2, k - 1);
      KeepsOdd(b, m);
      ThermometerOdd(m);
      assert Pow2(k) - 1 == 2 * m + 1;
    }
  }

  /** A region of 2^k addresses that starts at a multiple of its size. */
  lemma RegionIs(r: Region, k: nat)
    requires r.mask == Pow2(k) - 1
    ensures Thermometer(r.mask) && Top(r) == r.base - r.base % Pow2(k) + r.mask
    ensures Bottom(r.base, r.mask) == r.base - r.base % Pow2(k)
    ensures Aligned(r.base, r.mask) <==> r.base % Pow2(k) == 0
  {
    MaskIs(r.base, k);
  }

  /** The external region itself is a thermometer region with an aligned base. */
  lemma ExtMemIsAligned(ext: Region)
    requires ext == ExtMem
    ensures Thermometer(ext.mask) && Aligned(ext.base, ext.mask) && Fits(ext, AddressBits)
    ensures Top(ext) == 0xCFFF_FFFF && Holds(ext, ResetVector)
  {
    Powers();
    RegionIs(ext, 28);
  }

  lemma {:induction false} PowAdd(a: nat, b: nat)
    ensures Pow2(a + b) == Pow2(a) * Pow2(b)
  {
    if b > 0 { PowAdd(a, b - 1); }
  }

  lemma Powers()
    ensures Pow2(28) == 0x1000_0000 && Pow2(29) == 0x2000_0000 && Pow2(34) == 0x4_0000_0000
  {
    assert Pow2(4) == 16 && Pow2(6) == 64;
    PowAdd(4, 4);
    PowAdd(8, 8);
    PowAdd(16, 8);
    PowAdd(24, 4);
    PowAdd(28, 1);
    PowAdd(28, 6);
  }

  /** Alignment is needed: this region passes the check and answers the reset vector. */
  lemma UnalignedCollides(r: Region, ext: Region)
    requires r == Region("OTHER", 0xD000_0000, 0x1FFF_FFFF) && ext == ExtMem
    ensures Thermometer(r.mask) && Fits(r, AddressBits) && Apart(ext, r)
    ensures Collide(ext, r, AddressBits) && Selects(r, ResetVector, AddressBits)
  {
    Powers();
    RegionIs(r, 29);
    ExtMemIsAligned(ext);
    CollideIff(ext, r, AddressBits);
    MatchIs(ResetVector, r.base, r.mask, AddressBits);
  }
}
