/** Go's integers: 32 and 64 bits that wrap around, and division toward zero. */
module Integers {

  const TWO31: int := 0x8000_0000
  const TWO32: int := 0x1_0000_0000
  const TWO63: int := 0x8000_0000_0000_0000
  const TWO64: int := 0x1_0000_0000_0000_0000

  predicate Fits32(x: int) {
    -TWO31 <= x < TWO31
  }

  predicate Fits64(x: int) {
    -TWO63 <= x < TWO63
  }

  function Wrap32(x: int): (r: int)
    ensures Fits32(r) && (Fits32(x) ==> r == x)
  {
    (x + TWO31) % TWO32 - TWO31
  }

  function Wrap64(x: int): (r: int)
    ensures Fits64(r) && (Fits64(x) ==> r == x)
  {
    (x + TWO63) % TWO64 - TWO63
  }

  /** Go's division: toward zero. */
  function Quotient(a: int, b: int): int
    requires b != 0
  {
    if a >= 0 then a / b else -(-a / b)
  }

  lemma ProductGrows(k: int, x: int, y: int)
    requires 0 <= k && x <= y
    ensures k * x <= k * y
  {
  }

  lemma QuotientRemainder(a: int, n: int)
    requires a >= 0 && n > 0
    ensures n * Quotient(a, n) <= a < n * Quotient(a, n) + n
    ensures 0 <= Quotient(a, n)
  {
    assert a == n * (a / n) + a % n;
  }

  lemma QuotientBounds(a: int, n: int)
    requires a >= 0 && n > 0
    ensures n * Quotient(a, n) <= a < n * Quotient(a, n) + n
    ensures Quotient(a, n) > 0 <==> a >= n
    ensures 0 <= Quotient(a, n) <= a
  {
    QuotientRemainder(a, n);
    hide Quotient;
    var q := Quotient(a, n);
    if q > 0 {
      ProductGrows(n, 1, q);
      ProductGrows(q, 1, n);
    } else {
      assert n * q == 0;
    }
  }

  lemma QuotientFalls(a: int, m: int, n: int)
    requires a >= 0 && 0 < m <= n
    ensures Quotient(a, n) <= Quotient(a, m)
  {
    QuotientRemainder(a, m);
    QuotientRemainder(a, n);
    hide Quotient;
    var p, q := Quotient(a, m), Quotient(a, n);
    assert m * (p + 1) == m * p + m;
    if q > p {
      ProductGrows(m, p + 1, q);
      ProductGrows(q, m, n);
    }
  }

  lemma QuotientOfNegative(a: int, n: int)
    requires a < 0 && n > 0
    ensures Quotient(a, n) <= 0
  {
  }

  function Abs(x: int): int {
    if x < 0 then -x else x
  }

  /** The quotient leaves a remainder smaller than the divisor, with the sign of the dividend. */
  lemma QuotientTruncates(a: int, n: int)
    requires n != 0
    ensures a >= 0 ==> 0 <= a - n * Quotient(a, n) < Abs(n)
    ensures a <= 0 ==> -Abs(n) < a - n * Quotient(a, n) <= 0
  {
    if a >= 0 {
      assert a == n * (a / n) + a % n;
    } else {
      assert -a == n * (-a / n) + (-a) % n;
      assert n * -(-a / n) == -(n * (-a / n));
    }
  }

  lemma WrapsToZero(x: int)
    ensures Wrap32(x) == 0 <==> x % TWO32 == 0
  {
    var q := (x + TWO31) / TWO32;
    assert x + TWO31 == q * TWO32 + (x + TWO31) % TWO32;
    if Wrap32(x) == 0 {
      assert x == q * TWO32;
    }
    if x % TWO32 == 0 {
      var k := x / TWO32;
      assert x + TWO31 == k * TWO32 + TWO31;
    }
  }

  /** Adding up wraps as adding all at once. */
  lemma WrapAdds(a: int, b: int)
    ensures Wrap32(Wrap32(a) + b) == Wrap32(a + b)
  {
    var q := (a + TWO31) / TWO32;
    assert a + TWO31 == q * TWO32 + (a + TWO31) % TWO32;
    assert Wrap32(a) == a - q * TWO32;
    WrapShifts(a - q * TWO32 + b, q);
  }

  lemma WrapShifts(x: int, q: int)
    ensures Wrap32(x + q * TWO32) == Wrap32(x)
  {
    var r := (x + TWO31) % TWO32;
    var p := (x + TWO31) / TWO32;
    assert x + q * TWO32 + TWO31 == (p + q) * TWO32 + r;
  }

  lemma WrapBeyond(x: int)
    requires TWO31 <= x < TWO31 + TWO31
    ensures Wrap32(x) < 0
  {
  }
}
