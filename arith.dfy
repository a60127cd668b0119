/** Facts about integer multiplication that the solver does not find on
    its own, shared by the text and the product modules. */
module Arith {

  lemma MulSucc(a: int, b: int)
    ensures (a + 1) * b == b + a * b
  {
  }

  lemma MulAssoc(a: int, b: int, c: int)
    ensures a * b * c == a * (b * c)
  {
  }

  lemma MulLe(a: int, b: int, c: nat)
    requires a <= b
    ensures a * c <= b * c
  {
  }

  lemma MulZero(x: nat, s: nat)
    ensures s == 0 ==> x * s == 0
  {
  }

  /** A product of a positive count and a non-zero number is non-zero. */
  lemma MulNonZero(c: int, d: int)
    requires c >= 1 && d != 0
    ensures c * d != 0
  {
    MulSucc(c - 1, d);
    if d > 0 {
      assert c * d >= d;
    } else {
      assert c * d <= d;
    }
  }

  /** The only multiple of m strictly between -m and m is zero. */
  lemma SmallMultiple(d: int, m: int)
    requires 0 < m && -m < d * m < m
    ensures d == 0
  {
    if d >= 1 {
      MulLe(1, d, m);
    } else if d <= -1 {
      MulLe(d, -1, m);
    }
  }

  /** A remainder is determined by any quotient-remainder split. */
  lemma ModUnique(i: int, m: int, a: int, k: int)
    requires 0 < m && 0 <= k < m && i == a * m + k
    ensures i % m == k
  {
    var d := a - i / m;
    assert d * m == i % m - k;
    SmallMultiple(d, m);
  }

  /** Taking m away does not change the remainder modulo m. */
  lemma ModShift(i: int, m: int)
    requires 0 < m <= i
    ensures (i - m) % m == i % m
  {
    var q, k := (i - m) / m, (i - m) % m;
    assert i == (q + 1) * m + k;
    ModUnique(i, m, q + 1, k);
  }
}
