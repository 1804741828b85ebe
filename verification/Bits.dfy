/** Numbers as bit strings: input order (least significant bit first) and code order (most significant first). */
module Bits {
  import opened Arithmetic

  type Bit = bool

  function Pow2(n: nat): (p: nat)
    ensures p > 0
  {
    if n == 0 then 1 else 2 * Pow2(n - 1)
  }

  function ShiftRight(v: nat, n: nat): nat { if n == 0 then v else ShiftRight(v / 2, n - 1) }

  function ShiftLeft(v: nat, n: nat): nat { if n == 0 then v else 2 * ShiftLeft(v, n - 1) }

  /** The low `n` bits of `v`, least significant first. */
  function LowBits(v: nat, n: nat): (bits: seq<Bit>)
    ensures |bits| == n
  {
    if n == 0 then [] else [v % 2 == 1] + LowBits(v / 2, n - 1)
  }

  /** The low `n` bits of `v`, most significant first. */
  function CodeBits(v: nat, n: nat): (bits: seq<Bit>)
    ensures |bits| == n
  {
    if n == 0 then [] else CodeBits(v / 2, n - 1) + [v % 2 == 1]
  }

  /** The number whose bits these are, least significant first. */
  function Value(bits: seq<Bit>): nat {
    if bits == [] then 0 else (if bits[0] then 1 else 0) + 2 * Value(bits[1..])
  }

  function BytesToBits(bytes: seq<nat>): (bits: seq<Bit>)
    ensures |bits| == 8 * |bytes|
  {
    if bytes == [] then [] else LowBits(bytes[0], 8) + BytesToBits(bytes[1..])
  }

  lemma {:induction false} Pow2Sum(a: nat, b: nat)
    ensures Pow2(a + b) == Pow2(a) * Pow2(b)
  {
    if a > 0 {
      Pow2Sum(a - 1, b);
      assert Pow2(a + b) == 2 * Pow2(a - 1 + b);
    }
  }

  lemma {:induction false} Pow2Grows(a: nat, b: nat)
    requires a <= b
    ensures Pow2(a) <= Pow2(b)
  {
    if a < b {
      Pow2Grows(a, b - 1);
    }
  }

  lemma {:induction false} ValueOfLowBits(v: nat, n: nat)
    requires v < Pow2(n)
    ensures Value(LowBits(v, n)) == v
  {
    if n > 0 {
      ValueOfLowBits(v / 2, n - 1);
      assert LowBits(v, n)[1..] == LowBits(v / 2, n - 1);
    }
  }

  lemma {:induction false} LowBitsOfValue(bits: seq<Bit>)
    ensures LowBits(Value(bits), |bits|) == bits && Value(bits) < Pow2(|bits|)
  {
    if bits != [] {
      LowBitsOfValue(bits[1..]);
      assert bits == [bits[0]] + bits[1..];
    }
  }

  /** Taking low bits only looks at the remainder. */
  lemma {:induction false} LowBitsModulo(v: nat, n: nat)
    ensures LowBits(v, n) == LowBits(v % Pow2(n), n)
    ensures Value(LowBits(v, n)) == v % Pow2(n)
  {
    ValueOfLowBits(v % Pow2(n), n);
    if n > 0 {
      var p := Pow2(n - 1);
      LowBitsModulo(v / 2, n - 1);
      DivMod(v, p);
      assert LowBits(v, n) == [v % 2 == 1] + LowBits(v / 2, n - 1);
      assert LowBits(v % (2 * p), n) == [v % (2 * p) % 2 == 1] + LowBits(v % (2 * p) / 2, n - 1);
    }
  }

  lemma DivMod(v: nat, p: nat)
    requires p > 0
    ensures v % (2 * p) % 2 == v % 2 && v % (2 * p) / 2 == (v / 2) % p
  {
    var q, r := v / 2 / p, v / 2 % p;
    assert v / 2 == q * p + r;
    assert v == 2 * (q * p + r) + v % 2;
    assert v == q * (2 * p) + (2 * r + v % 2);
    Remainder(v, 2 * p, q, 2 * r + v % 2);
  }

  lemma {:induction false} LowBitsPrefix(v: nat, m: nat, n: nat)
    requires m <= n
    ensures LowBits(v, n)[..m] == LowBits(v, m)
    ensures LowBits(v, n)[m..] == LowBits(ShiftRight(v, m), n - m)
  {
    if m > 0 {
      LowBitsPrefix(v / 2, m - 1, n - 1);
      var all := LowBits(v, n);
      assert all[1..] == LowBits(v / 2, n - 1);
      assert all[..m] == [all[0]] + all[1..][..m - 1];
      assert all[m..] == all[1..][m - 1..];
    }
  }

  /** Appending a byte above the low bits appends its bits. */
  lemma {:induction false} LowBitsAppend(v: nat, n: nat, high: nat, m: nat)
    requires v < Pow2(n)
    ensures LowBits(v + ShiftLeft(high, n), n + m) == LowBits(v, n) + LowBits(high, m)
  {
    if n > 0 {
      LowBitsAppend(v / 2, n - 1, high, m);
      Halves(v, ShiftLeft(high, n - 1));
    }
  }

  lemma Halves(v: nat, x: nat)
    ensures (v + 2 * x) / 2 == v / 2 + x && (v + 2 * x) % 2 == v % 2
  {
  }

  lemma {:induction false} ValueOfCodeBits(a: nat, m: nat, b: nat, n: nat)
    requires m <= n && a < Pow2(m) && b < Pow2(n)
    ensures CodeBits(a, m) <= CodeBits(b, n) <==> a == ShiftRight(b, n - m)
    decreases n
  {
    if m == n {
      CodeBitsInjective(a, b, n);
    } else {
      ValueOfCodeBits(a, m, b / 2, n - 1);
      assert CodeBits(b, n)[..m] == CodeBits(b / 2, n - 1)[..m];
      assert CodeBits(a, m) <= CodeBits(b, n) <==> CodeBits(a, m) == CodeBits(b, n)[..m];
      assert CodeBits(a, m) <= CodeBits(b / 2, n - 1) <==> CodeBits(a, m) == CodeBits(b / 2, n - 1)[..m];
    }
  }

  lemma {:induction false} CodeBitsInjective(a: nat, b: nat, n: nat)
    requires a < Pow2(n) && b < Pow2(n)
    ensures CodeBits(a, n) == CodeBits(b, n) <==> a == b
  {
    if n > 0 {
      CodeBitsInjective(a / 2, b / 2, n - 1);
      assert CodeBits(a, n)[..n - 1] == CodeBits(a / 2, n - 1) && CodeBits(a, n)[n - 1] == (a % 2 == 1);
      assert CodeBits(b, n)[..n - 1] == CodeBits(b / 2, n - 1) && CodeBits(b, n)[n - 1] == (b % 2 == 1);
    }
  }
}
