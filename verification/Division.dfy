/** Quotients and remainders by a divisor that is not a constant. */
module Division {

  function Quotient(v: nat, d: nat): (q: nat)
    requires d > 0
  {
    v / d
  }

  function Remainder(v: nat, d: nat): (r: nat)
    requires d > 0
    ensures r < d
  {
    v % d
  }

  lemma DivIs(m: int, d: int, q: int, r: int)
    requires d > 0 && m == q * d + r && 0 <= r < d
    ensures m / d == q && m % d == r
  {
    var q1, r1 := m / d, m % d;
    assert m == q1 * d + r1;
    assert (q - q1) * d == r1 - r;
    if q > q1 { assert (q - q1) * d >= d by { Scaled(1, q - q1, d); } }
    if q < q1 { assert (q1 - q) * d >= d by { Scaled(1, q1 - q, d); } }
  }

  lemma Scaled(a: int, b: int, d: int)
    requires a <= b && d >= 0
    ensures a * d <= b * d
  {
  }

  lemma NextDiv(m: nat, d: nat)
    requires d > 0
    ensures (m + 1) / d == m / d + if (m + 1) % d == 0 then 1 else 0
  {
    var q, r := m / d, m % d;
    if r + 1 == d {
      assert m + 1 == (q + 1) * d + 0;
      DivIs(m + 1, d, q + 1, 0);
    } else {
      DivIs(m + 1, d, q, r + 1);
    }
  }

  lemma WiderDiv(m: nat, w: nat, d: nat)
    requires d > 0
    ensures w <= d ==> m / d <= (m + w) / d <= m / d + 1
    ensures w >= d ==> (m + w) / d >= m / d + 1
    ensures w == d ==> (m + w) / d == m / d + 1
  {
    var q, r := m / d, m % d;
    if r + w < d { DivIs(m + w, d, q, r + w); }
    else {
      var q2, r2 := (r + w) / d, (r + w) % d;
      assert m + w == (q + q2) * d + r2;
      DivIs(m + w, d, q + q2, r2);
      if q2 < 1 { Scaled(q2, 0, d); }
      if q2 > 1 && w <= d { Scaled(2, q2, d); }
    }
  }

  lemma ModDouble(b: nat, p: nat)
    requires p > 0
    ensures b % (2 * p) == 2 * (b / 2 % p) + b % 2
  {
    var q, r := b / 2 / p, b / 2 % p;
    assert b / 2 == q * p + r;
    assert b == q * (2 * p) + (2 * r + b % 2);
    DivIs(b, 2 * p, q, 2 * r + b % 2);
  }

  lemma SplitIs(v: nat, d: nat)
    requires d > 0
    ensures v == Quotient(v, d) * d + Remainder(v, d)
  {
  }

  lemma QuotientBelow(v: nat, d: nat, p: nat)
    requires d > 0 && v < d * p
    ensures Quotient(v, d) < p
  {
  }

  lemma Unsplit(q: nat, r: nat, d: nat)
    requires r < d
    ensures Quotient(r + d * q, d) == q && Remainder(r + d * q, d) == r
  {
    DivIs(r + d * q, d, q, r);
  }
}
