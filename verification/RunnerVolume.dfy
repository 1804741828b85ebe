/** Integer rounding to binary64, and volumes that add up exactly on a decimal grid. */
module RunnerVolumes {
  import opened Arithmetic
  import opened Feed
  import opened Bits

  type U64 = n: nat | n <= MAX_U64

  const BINARY53 := 0x20_0000_0000_0000

  function Pow5(n: nat): (p: nat)
    ensures p > 0
  {
    if n == 0 then 1 else 5 * Pow5(n - 1)
  }

  /** 10^22 is the largest grid the producer accepts. */
  lemma {:induction false} Pow5Fits(n: nat)
    requires n <= 22
    ensures Pow5(n) < BINARY53
  {
    Pow5Grows(n, 22);
    assert Pow5(4) == 625 && Pow5(8) == 390625;
    Pow5Sum(8, 8);
    Pow5Sum(16, 6);
    assert Pow5(6) == 15625;
  }

  lemma {:induction false} Pow5Grows(m: nat, n: nat)
    requires m <= n
    ensures Pow5(m) <= Pow5(n)
  {
    if m < n {
      Pow5Grows(m, n - 1);
    }
  }

  lemma {:induction false} Pow5Sum(m: nat, n: nat)
    ensures Pow5(m + n) == Pow5(m) * Pow5(n)
  {
    if m > 0 {
      Pow5Sum(m - 1, n);
      assert Pow5(m + n) == 5 * Pow5(m - 1 + n);
    }
  }

  function Abs(x: int): nat { if x < 0 then -x else x }

  /** The distance of units from `m * 2^-52` times the denominator, in units of 2^-53. */
  function Distance(units: nat, denominator: nat, m: nat): nat { Abs(units * Pow2(53) - 2 * m * denominator) }

  /**
   * `m * 2^(k - 52 - places)` is units / 10^places rounded to nearest even: `m` has 53 bits in the quotient's
   * own binade, no other significand is nearer, and of two equally near ones `m` is the even one.
   */
  ghost predicate NearestEven(units: nat, places: nat, m: nat, k: nat) {
    var denominator := Pow5(places) * Pow2(k);
    && denominator <= units < 2 * denominator
    && Pow2(52) <= m <= Pow2(53)
    && forall other: nat :: other != m ==>
         Distance(units, denominator, m) < Distance(units, denominator, other)
         || (Distance(units, denominator, m) == Distance(units, denominator, other) && m % 2 == 0)
  }

  /** Doubles the denominator into the numerator's binade; the source's second loop, for a smaller numerator, has
      nothing to do. */
  method Normalise(units: U64, places: nat) returns (denominator: U64, exponent: int)
    requires BINARY53 < units <= MAX_I64 && places <= 22
    ensures exponent + places >= 0 && denominator == Pow5(places) * Pow2(exponent + places)
    ensures denominator <= units < 2 * denominator
  {
    Pow5Fits(places);
    var power: U64, place := 1, 0;
    while place < places
      invariant place <= places && power == Pow5(place)
    {
      Pow5Grows(place + 1, places);
      power, place := power * 5, place + 1;
    }
    denominator, exponent := power, 0 - places;
    assert Pow2(0) == 1;
    while denominator <= units / 2
      invariant exponent + places >= 0 && denominator == Pow5(places) * Pow2(exponent + places) <= units
      decreases units - denominator
    {
      DoubledProduct(Pow5(places), exponent + places);
      denominator, exponent := denominator * 2, exponent + 1;
    }
  }

  lemma DoubledProduct(a: nat, n: nat)
    ensures a * Pow2(n + 1) == 2 * (a * Pow2(n))
  {
    assert a * (2 * Pow2(n)) == 2 * (a * Pow2(n));
  }

  /** units / 10^places above 2^53, rounded once, in 64-bit arithmetic that never overflows. */
  method Decimal(units: U64, places: nat) returns (significand: U64, exponent: int)
    requires BINARY53 < units <= MAX_I64 && places <= 22
    ensures exponent + places >= 0 && NearestEven(units, places, significand, exponent + places)
  {
    hide Pow2, Pow5, NearestEven, Divided;
    var denominator;
    denominator, exponent := Normalise(units, places);
    var remainder: U64 := units - denominator;
    significand := 1;
    var bit := 0;
    DivisionStart(units, denominator);
    while bit < 52
      invariant bit <= 52 && Divided(units, bit, significand, denominator, remainder)
    {
      DivisionStep(units, bit, significand, denominator, remainder);
      remainder, significand := remainder * 2, significand * 2;
      if remainder >= denominator {
        remainder, significand := remainder - denominator, significand + 1;
      }
      bit := bit + 1;
    }
    DividedFacts(units, bit, significand, denominator, remainder);
    var complement: U64 := denominator - remainder;
    ghost var truncated := significand;
    if remainder > complement || (remainder == complement && significand % 2 == 1) {
      significand := significand + 1;
    }
    Nearest(units, places, exponent + places, denominator, truncated, remainder, significand);
  }

  /** The quotient's first `bit` binary places, and what is left. */
  ghost predicate Divided(units: nat, bit: nat, s: nat, d: nat, r: nat) {
    && units * Pow2(bit) == s * d + r
    && r < d && Pow2(bit) <= s < Pow2(bit + 1)
  }

  lemma DivisionStart(units: nat, d: nat)
    requires d <= units < 2 * d
    ensures Divided(units, 0, 1, d, units - d)
  {
  }

  lemma DividedFacts(units: nat, bit: nat, s: nat, d: nat, r: nat)
    requires Divided(units, bit, s, d, r) && bit <= 52
    ensures r < d && 0 < s < BINARY53
  {
    PowersFit(bit + 1);
  }

  lemma DivisionStep(units: nat, bit: nat, s: nat, d: nat, r: nat)
    requires Divided(units, bit, s, d, r) && bit < 52
    ensures r < d && s < BINARY53
    ensures if 2 * r >= d then Divided(units, bit + 1, 2 * s + 1, d, 2 * r - d)
            else Divided(units, bit + 1, 2 * s, d, 2 * r)
  {
    DividedFacts(units, bit, s, d, r);
    Doubling(bit);
    hide Pow2;
    Twice(units, Pow2(bit), s, d, r);
  }

  lemma Doubling(bit: nat)
    ensures Pow2(bit + 1) == 2 * Pow2(bit) && Pow2(bit + 2) == 4 * Pow2(bit)
  {
  }

  lemma PowersFit(n: nat)
    requires n <= 53
    ensures Pow2(n) <= BINARY53
  {
    Pow2Grows(n, 53);
    Binary53();
  }

  lemma Binary53()
    ensures Pow2(53) == BINARY53
  {
    assert Pow2(5) == 32 && Pow2(3) == 8;
    hide Pow2;
    Pow2Sum(5, 5);
    Pow2Sum(10, 10);
    Pow2Sum(20, 20);
    Pow2Sum(40, 10);
    Pow2Sum(50, 3);
  }

  lemma Twice(units: nat, p: nat, s: nat, d: nat, r: nat)
    requires units * p == s * d + r
    ensures units * (2 * p) == (2 * s) * d + 2 * r == (2 * s + 1) * d + (2 * r - d)
  {
    assert units * (2 * p) == 2 * (units * p);
    assert (2 * s) * d == 2 * (s * d);
    assert (2 * s + 1) * d == (2 * s) * d + d;
  }

  lemma Nearest(units: nat, places: nat, k: nat, d: nat, s: nat, r: nat, m: nat)
    requires d == Pow5(places) * Pow2(k) && d <= units < 2 * d
    requires Divided(units, 52, s, d, r)
    requires m == if r > d - r || (r == d - r && s % 2 == 1) then s + 1 else s
    ensures NearestEven(units, places, m, k)
  {
    hide Pow2, Pow5, Divided, Distance;
    DoubleDivided(units, s, d, r);
    forall other: nat | other != m
      ensures Distance(units, d, m) < Distance(units, d, other)
              || (Distance(units, d, m) == Distance(units, d, other) && m % 2 == 0)
    {
      NearerDistance(units, s, d, r, m, other);
    }
  }

  lemma DoubleDivided(units: nat, s: nat, d: nat, r: nat)
    requires Divided(units, 52, s, d, r)
    ensures units * Pow2(53) == 2 * (s * d + r) && r < d && Pow2(52) <= s < Pow2(53)
  {
    Doubling(52);
    hide Pow2;
    Twice(units, Pow2(52), s, d, r);
  }

  lemma NearerDistance(units: nat, s: nat, d: nat, r: nat, m: nat, other: nat)
    requires units * Pow2(53) == 2 * (s * d + r) && r < d && other != m
    requires m == if r > d - r || (r == d - r && s % 2 == 1) then s + 1 else s
    ensures Distance(units, d, m) < Distance(units, d, other)
            || (Distance(units, d, m) == Distance(units, d, other) && m % 2 == 0)
  {
    hide Pow2, Abs;
    Nearer(units * Pow2(53), s, d, r, m, other);
  }

  lemma Nearer(x: nat, s: nat, d: nat, r: nat, m: nat, other: nat)
    requires x == 2 * (s * d + r) && r < d && other != m
    requires m == if r > d - r || (r == d - r && s % 2 == 1) then s + 1 else s
    ensures Abs(x - 2 * m * d) < Abs(x - 2 * other * d) || (Abs(x - 2 * m * d) == Abs(x - 2 * other * d) && m % 2 == 0)
  {
    Offset(x, s, d, r, m);
    Offset(x, s, d, r, other);
    Multiple(other - s, d);
    Multiple(other - s - 1, d);
  }

  lemma Offset(x: int, s: int, d: int, r: int, m: int)
    requires x == 2 * (s * d + r)
    ensures x - 2 * m * d == 2 * r - 2 * ((m - s) * d)
    ensures m == s ==> (m - s) * d == 0
    ensures m == s + 1 ==> (m - s) * d == d
    ensures (m - s - 1) * d == (m - s) * d - d
  {
    assert 2 * m * d == 2 * (m * d);
    assert (m - s) * d == m * d - s * d;
  }

  // ---------- The sum ----------

  /** A quantity's exact grid units, when it has them; the floating scaling behind it is not modelled. */
  type Grid = real -> Option<nat>

  ghost predicate OnGrid(grid: Grid, quantities: seq<real>) {
    forall q :: q in quantities ==> grid(q).Some?
  }

  function Total(grid: Grid, quantities: seq<real>): nat {
    if quantities == [] then 0
    else
      var last := grid(quantities[|quantities| - 1]);
      Total(grid, quantities[..|quantities| - 1]) + if last.Some? then last.value else 0
  }

  /** Whether the total is exact, and the total itself, depend only on which quantities were added. */
  lemma OrderIrrelevant(grid: Grid, a: seq<real>, b: seq<real>)
    requires multiset(a) == multiset(b)
    ensures OnGrid(grid, a) <==> OnGrid(grid, b)
    ensures Total(grid, a) == Total(grid, b)
  {
    assert forall q :: q in a <==> q in multiset(a);
    assert forall q :: q in b <==> q in multiset(b);
    TotalPermuted(grid, a, b);
  }

  lemma {:induction false} TotalPermuted(grid: Grid, a: seq<real>, b: seq<real>)
    requires multiset(a) == multiset(b)
    ensures Total(grid, a) == Total(grid, b)
    decreases |a|
  {
    if a == [] {
      assert |multiset(b)| == 0;
      assert b == [];
    } else {
      var last, front := a[|a| - 1], a[..|a| - 1];
      RemoveOne(a, |a| - 1);
      assert front + a[|a|..] == front;
      assert last in multiset(b);
      var i :| 0 <= i < |b| && b[i] == last;
      RemoveOne(b, i);
      TotalPermuted(grid, front, b[..i] + b[i + 1..]);
      TotalWithout(grid, b, i);
    }
  }

  lemma RemoveOne(s: seq<real>, i: nat)
    requires i < |s|
    ensures multiset(s[..i] + s[i + 1..]) == multiset(s) - multiset{s[i]}
  {
    assert s == s[..i] + [s[i]] + s[i + 1..];
    assert multiset(s) == multiset(s[..i]) + multiset{s[i]} + multiset(s[i + 1..]);
  }

  lemma {:induction false} TotalWithout(grid: Grid, b: seq<real>, i: nat)
    requires i < |b|
    ensures Total(grid, b) == Total(grid, b[..i] + b[i + 1..]) + if grid(b[i]).Some? then grid(b[i]).value else 0
    decreases |b|
  {
    var rest := b[..i] + b[i + 1..];
    if i == |b| - 1 {
      assert rest == b[..i];
    } else {
      var front := b[..|b| - 1];
      assert rest[..|rest| - 1] == front[..i] + front[i + 1..];
      assert rest[|rest| - 1] == b[|b| - 1];
      TotalWithout(grid, front, i);
    }
  }

  class RunnerVolume {
    const grid: Grid
    var units: nat
    var exact: bool
    ghost var added: seq<real>

    /** The sum is exact precisely while every quantity is on the grid and the total fits in 63 bits. */
    ghost predicate Valid()
      reads this
    {
      && (exact <==> OnGrid(grid, added) && Total(grid, added) <= MAX_I64)
      && (exact ==> units == Total(grid, added))
    }

    constructor (grid: Grid)
      ensures Valid() && added == [] && this.grid == grid
    {
      this.grid, units, exact, added := grid, 0, true, [];
    }

    method Add(quantity: real)
      requires Valid()
      modifies this
      ensures Valid() && added == old(added) + [quantity]
    {
      ghost var before := added;
      added := added + [quantity];
      assert added[..|added| - 1] == before && added[|added| - 1] == quantity;
      if !exact {
        assert forall q :: q in before ==> q in added;
        return;
      }
      var more := grid(quantity);
      if more.None? || more.value > MAX_I64 - units {
        exact := false;
        return;
      }
      units := units + more.value;
    }
  }
}
