/** Products of unknowns, one step at a time. */
module Arithmetic {
  lemma Distribute(a: int, b: int, c: int)
    ensures (a + b) * c == a * c + b * c
  {
  }

  lemma Associate(a: int, b: int, c: int)
    ensures a * b * c == a * (b * c)
  {
  }

  lemma Grows(a: int, b: int, c: nat)
    requires a <= b
    ensures a * c <= b * c
  {
  }

  lemma Multiple(a: int, p: int)
    requires p > 0
    ensures a >= 1 ==> a * p >= p
    ensures a <= -1 ==> a * p <= -p
  {
    if a >= 1 {
      assert (a - 1) * p >= 0;
    } else if a <= -1 {
      assert (a + 1) * p <= 0;
    }
  }

  lemma Cancel(a: int, b: int, p: int)
    requires p > 0 && a * p == b * p
    ensures a == b
  {
    Multiple(a - b, p);
    assert (a - b) * p == a * p - b * p;
  }

  lemma Remainder(v: nat, p: nat, q: nat, r: nat)
    requires p > 0 && v == q * p + r && r < p
    ensures v % p == r && v / p == q
  {
    assert v / p * p + v % p == v;
    assert (v / p - q) * p == v / p * p - q * p;
    Multiple(v / p - q, p);
  }
}
