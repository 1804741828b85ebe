/** Exact decimals as digit strings: bounded coefficient and scale, schoolbook arithmetic, one token per value. */
module Decimals {
  import opened Arithmetic
  import opened Feed

  function Pow10(n: nat): (p: nat)
    ensures p > 0
  {
    if n == 0 then 1 else 10 * Pow10(n - 1)
  }

  /** The number a digit string writes, most significant digit first. */
  function Number(digits: seq<nat>): nat {
    if digits == [] then 0 else 10 * Number(digits[..|digits| - 1]) + digits[|digits| - 1]
  }

  predicate Digits(digits: seq<nat>) { forall i :: 0 <= i < |digits| ==> digits[i] <= 9 }

  function Zeros(n: nat): (s: seq<nat>)
    ensures |s| == n && forall i :: 0 <= i < n ==> s[i] == 0
  {
    seq(n, _ => 0)
  }

  datatype Decimal = Decimal(coefficient: seq<nat>, scale: nat) {
    /** The one digit string of a value: no leading zero, no trailing fractional zero. */
    predicate Normal() {
      && Digits(coefficient) && coefficient != []
      && (|coefficient| > 1 ==> coefficient[0] != 0)
      && (scale > 0 ==> coefficient != [0] && coefficient[|coefficient| - 1] != 0)
    }

    predicate Valid() { Normal() && |coefficient| <= 128 && scale <= 32 }

    predicate Zero() { coefficient == [0] }

    /** The value times 10^s. */
    function Scaled(s: nat): nat
      requires scale <= s
    {
      Number(coefficient) * Pow10(s - scale)
    }

    /** Whether the value is n / 10^s. */
    predicate Is(n: nat, s: nat) { Number(coefficient) * Pow10(s) == n * Pow10(scale) }
  }

  // ---------- Digit strings ----------

  lemma {:induction false} Pow10Sum(a: nat, b: nat)
    ensures Pow10(a + b) == Pow10(a) * Pow10(b)
  {
    if a > 0 {
      Pow10Sum(a - 1, b);
      Tens(Pow10(a - 1), Pow10(b));
    }
  }

  lemma Tens(a: int, b: int)
    ensures 10 * a * b == 10 * (a * b)
  {
  }

  lemma {:induction false} NumberConcat(a: seq<nat>, b: seq<nat>)
    ensures Number(a + b) == Number(a) * Pow10(|b|) + Number(b)
  {
    if b == [] {
      assert a + b == a && Pow10(0) == 1;
    } else {
      var front, last := b[..|b| - 1], b[|b| - 1];
      assert (a + b)[..|a + b| - 1] == a + front && (a + b)[|a + b| - 1] == last;
      NumberConcat(a, front);
      hide Pow10;
      PowStep(|b|);
      Shift(Number(a), Pow10(|front|));
    }
  }

  lemma Shift(a: int, p: int)
    ensures a * (10 * p) == 10 * (a * p)
  {
  }

  lemma {:induction false} NumberZeros(n: nat)
    ensures Number(Zeros(n)) == 0
  {
    if n > 0 {
      assert Zeros(n)[..n - 1] == Zeros(n - 1);
      NumberZeros(n - 1);
    }
  }

  lemma {:induction false} NumberBound(digits: seq<nat>)
    requires Digits(digits)
    ensures Number(digits) < Pow10(|digits|)
    ensures digits != [] && digits[0] != 0 ==> Pow10(|digits| - 1) <= Number(digits)
  {
    if digits != [] {
      NumberBound(digits[..|digits| - 1]);
      assert |digits| > 1 ==> digits[..|digits| - 1][0] == digits[0];
    }
  }

  lemma SplitDigit(x: nat, a: nat, y: nat, b: nat)
    requires 10 * x + a == 10 * y + b && a < 10 && b < 10
    ensures x == y && a == b
  {
  }

  /** Digit strings of one length compare like their numbers. */
  lemma {:induction false} SameLength(a: seq<nat>, b: seq<nat>)
    requires |a| == |b| && Digits(a) && Digits(b) && Number(a) == Number(b)
    ensures a == b
  {
    if a != [] {
      var n := |a| - 1;
      SplitDigit(Number(a[..n]), a[n], Number(b[..n]), b[n]);
      hide Number;
      SameLength(a[..n], b[..n]);
      assert a == a[..n] + [a[n]] && b == b[..n] + [b[n]];
    }
  }

  lemma Padded(digits: seq<nat>, n: nat)
    ensures Number(digits + Zeros(n)) == Number(digits) * Pow10(n)
    ensures Number(Zeros(n) + digits) == Number(digits)
  {
    NumberConcat(digits, Zeros(n));
    NumberConcat(Zeros(n), digits);
    NumberZeros(n);
  }

  // ---------- The normal form ----------

  function Leading(digits: seq<nat>): (n: nat)
    ensures n <= |digits| && (forall i :: 0 <= i < n ==> digits[i] == 0) && (n < |digits| ==> digits[n] != 0)
  {
    if digits == [] || digits[0] != 0 then 0 else 1 + Leading(digits[1..])
  }

  /** Strips leading zeros and trailing fractional zeros, and refuses what exceeds the precision bound. */
  method Make(digits: seq<nat>, scale: nat) returns (r: Result<Decimal>)
    requires Digits(digits)
    ensures r == Normalised(digits, scale)
  {
    hide Leading, Trimmed, Stripped, Digits;
    var first := 0;
    while first < |digits| && digits[first] == 0
      invariant first <= |digits| && Leading(digits) == first + Leading(digits[first..])
    {
      LeadingStep(digits, first);
      first := first + 1;
    }
    StrippedAt(digits, first);
    var coefficient := if first == |digits| then [0] else digits[first..];
    var s := scale;
    while s > 0 && |coefficient| > 1 && coefficient[|coefficient| - 1] == 0
      invariant coefficient != [] && Trimmed(coefficient, s) == Trimmed(Stripped(digits), scale)
    {
      TrimmedStep(coefficient, s);
      coefficient, s := coefficient[..|coefficient| - 1], s - 1;
    }
    TrimmedStep(coefficient, s);
    if coefficient == [0] {
      s := 0;
    }
    if |coefficient| > 128 || s > 32 {
      return Err(23);
    }
    return Ok(Decimal(coefficient, s));
  }

  lemma LeadingStep(digits: seq<nat>, first: nat)
    requires first < |digits| && digits[first] == 0
    ensures Leading(digits[first..]) == 1 + Leading(digits[first + 1..])
  {
    assert digits[first..][1..] == digits[first + 1..];
  }

  lemma StrippedAt(digits: seq<nat>, first: nat)
    requires first <= |digits| && Leading(digits) == first + Leading(digits[first..])
    requires first < |digits| ==> digits[first] != 0
    ensures Stripped(digits) == if first == |digits| then [0] else digits[first..]
  {
  }

  lemma TrimmedStep(coefficient: seq<nat>, scale: nat)
    requires coefficient != []
    ensures Trimmed(coefficient, scale)
         == if scale > 0 && |coefficient| > 1 && coefficient[|coefficient| - 1] == 0
            then Trimmed(coefficient[..|coefficient| - 1], scale - 1)
            else Decimal(coefficient, scale)
  {
  }

  function Trimmed(coefficient: seq<nat>, scale: nat): (d: Decimal)
    requires coefficient != []
    ensures d.coefficient != [] && d.scale <= scale && d.coefficient <= coefficient
    ensures |coefficient| - |d.coefficient| == scale - d.scale
    decreases |coefficient|
  {
    if scale > 0 && |coefficient| > 1 && coefficient[|coefficient| - 1] == 0
    then Trimmed(coefficient[..|coefficient| - 1], scale - 1)
    else Decimal(coefficient, scale)
  }

  function Stripped(digits: seq<nat>): (rest: seq<nat>)
    ensures rest != []
  {
    if Leading(digits) == |digits| then [0] else digits[Leading(digits)..]
  }

  function Reduced(digits: seq<nat>, scale: nat): Decimal {
    var d := Trimmed(Stripped(digits), scale);
    if d.coefficient == [0] then d.(scale := 0) else d
  }

  function Normalised(digits: seq<nat>, scale: nat): Result<Decimal> {
    var d := Reduced(digits, scale);
    if |d.coefficient| > 128 || d.scale > 32 then Err(23) else Ok(d)
  }

  lemma {:induction false} TrimmedValue(coefficient: seq<nat>, scale: nat)
    requires coefficient != [] && Digits(coefficient)
    ensures var d := Trimmed(coefficient, scale);
            && Number(coefficient) == Number(d.coefficient) * Pow10(scale - d.scale) && Digits(d.coefficient)
            && (d.scale > 0 && |d.coefficient| > 1 ==> d.coefficient[|d.coefficient| - 1] != 0)
    decreases |coefficient|
  {
    var d := Trimmed(coefficient, scale);
    if scale > 0 && |coefficient| > 1 && coefficient[|coefficient| - 1] == 0 {
      TrimmedValue(coefficient[..|coefficient| - 1], scale - 1);
      Shift(Number(d.coefficient), Pow10(scale - 1 - d.scale));
    } else {
      assert Number(d.coefficient) * Pow10(0) == Number(d.coefficient);
    }
  }

  predicate Trim(digits: seq<nat>) { Digits(digits) && digits != [] && (|digits| > 1 ==> digits[0] != 0) }

  lemma StrippedValue(digits: seq<nat>)
    requires Digits(digits)
    ensures Number(Stripped(digits)) == Number(digits) && Trim(Stripped(digits))
  {
    var n := Leading(digits);
    assert digits == Zeros(n) + digits[n..];
    NumberConcat(Zeros(n), digits[n..]);
    NumberZeros(n);
    assert Number([0]) == 0 && Number([]) == 0;
  }

  /** The reduced form is normal and has the same value. */
  lemma ReducedValue(digits: seq<nat>, scale: nat)
    requires Digits(digits)
    ensures Reduced(digits, scale).Normal() && Reduced(digits, scale).Is(Number(digits), scale)
  {
    hide Number, Trimmed, Stripped, Pow10;
    StrippedValue(digits);
    var coefficient := Stripped(digits);
    TrimmedValue(coefficient, scale);
    var d := Trimmed(coefficient, scale);
    TrimmedIs(d, Number(coefficient), scale);
    assert d.coefficient[0] == coefficient[0];
    if d.coefficient == [0] {
      ZeroNumber();
      ZeroIs(Pow10(scale - d.scale), Pow10(scale));
    }
  }

  lemma TrimmedIs(d: Decimal, n: nat, scale: nat)
    requires d.scale <= scale && n == Number(d.coefficient) * Pow10(scale - d.scale)
    ensures d.Is(n, scale)
  {
    CrossScale(Number(d.coefficient), scale - d.scale, d.scale);
  }

  lemma ZeroNumber()
    ensures Number([0]) == 0
  {
  }

  lemma ZeroIs(a: int, b: int)
    ensures 0 * a == 0 && 0 * b == 0
  {
  }

  lemma CrossScale(n: nat, a: nat, b: nat)
    ensures n * Pow10(a) * Pow10(b) == n * Pow10(a + b)
  {
    Pow10Sum(a, b);
    Associate(n, Pow10(a), Pow10(b));
  }

  /** A value has one normal form. */
  lemma NormalIsUnique(a: Decimal, b: Decimal, n: nat, s: nat)
    requires a.Normal() && b.Normal() && a.Is(n, s) && b.Is(n, s)
    ensures a == b
  {
    SameValue(a, b, n, s);
    if a.scale <= b.scale {
      NormalIsUniqueOrdered(a, b);
    } else {
      NormalIsUniqueOrdered(b, a);
    }
  }

  lemma SameValue(a: Decimal, b: Decimal, n: nat, s: nat)
    requires a.Is(n, s) && b.Is(n, s)
    ensures Number(a.coefficient) * Pow10(b.scale) == Number(b.coefficient) * Pow10(a.scale)
  {
    CancelScales(Number(a.coefficient), Number(b.coefficient), Pow10(a.scale), Pow10(b.scale), Pow10(s), n);
  }

  lemma CancelScales(x: int, y: int, a: int, b: int, p: int, n: int)
    requires p > 0 && x * p == n * a && y * p == n * b
    ensures x * b == y * a
  {
    assert x * b * p == x * p * b == n * a * b;
    assert y * a * p == y * p * a == n * b * a;
    assert n * a * b == n * b * a;
    Cancel(x * b, y * a, p);
  }

  lemma NormalIsUniqueOrdered(a: Decimal, b: Decimal)
    requires a.Normal() && b.Normal() && a.scale <= b.scale
    requires Number(a.coefficient) * Pow10(b.scale) == Number(b.coefficient) * Pow10(a.scale)
    ensures a == b
  {
    hide Number, Pow10;
    var k := b.scale - a.scale;
    CrossScale(Number(a.coefficient), k, a.scale);
    Cancel(Number(a.coefficient) * Pow10(k), Number(b.coefficient), Pow10(a.scale));
    LastDigit(b.coefficient);
    if k > 0 {
      PowStep(k);
      Shift(Number(a.coefficient), Pow10(k - 1));
      assert false;
    } else {
      NoDigits();
      SameNumber(a.coefficient, b.coefficient);
    }
  }

  lemma LastDigit(digits: seq<nat>)
    requires Digits(digits) && digits != []
    ensures Number(digits) % 10 == digits[|digits| - 1]
  {
  }

  lemma SameNumber(a: seq<nat>, b: seq<nat>)
    requires Trim(a) && Trim(b) && Number(a) == Number(b)
    ensures a == b
  {
    Longer(a, b);
    Longer(b, a);
    SameLength(a, b);
  }

  /** Without leading zeros, the longer digit string is the larger number. */
  lemma Longer(a: seq<nat>, b: seq<nat>)
    requires Trim(a) && Trim(b)
    ensures |a| < |b| ==> Number(a) < Number(b)
  {
    NumberBound(a);
    NumberBound(b);
    if |a| < |b| {
      Pow10Grows(|a|, |b| - 1);
    }
  }

  lemma {:induction false} Pow10Grows(m: nat, n: nat)
    requires m <= n
    ensures Pow10(m) <= Pow10(n)
  {
    if m < n {
      Pow10Grows(m, n - 1);
    }
  }

  /** The result is exact, or no decimal within the precision bound is. */
  ghost predicate Exact(r: Result<Decimal>, n: nat, s: nat) {
    match r
    case Ok(d) => d.Valid() && d.Is(n, s)
    case Err(code) => code == 23 && forall d: Decimal :: d.Valid() ==> !d.Is(n, s)
  }

  lemma NormalisedIsExact(digits: seq<nat>, scale: nat)
    requires Digits(digits)
    ensures Exact(Normalised(digits, scale), Number(digits), scale)
  {
    ReducedValue(digits, scale);
    var reduced := Reduced(digits, scale);
    if Normalised(digits, scale).Err? {
      forall d: Decimal | d.Valid()
        ensures !d.Is(Number(digits), scale)
      {
        if d.Is(Number(digits), scale) {
          NormalIsUnique(d, reduced, Number(digits), scale);
        }
      }
    }
  }

  // ---------- Order ----------

  /** The first difference decides between strings of one length. */
  function Earlier(a: seq<nat>, b: seq<nat>): bool
    requires |a| == |b|
  {
    a != [] && (a[0] < b[0] || (a[0] == b[0] && Earlier(a[1..], b[1..])))
  }

  lemma {:induction false} EarlierIsLess(a: seq<nat>, b: seq<nat>)
    requires |a| == |b| && Digits(a) && Digits(b)
    ensures Earlier(a, b) <==> Number(a) < Number(b)
  {
    if a != [] {
      EarlierIsLess(a[1..], b[1..]);
      FirstDigit(a);
      FirstDigit(b);
      NumberBound(a[1..]);
      NumberBound(b[1..]);
      if a[0] < b[0] {
        Grows(a[0] + 1, b[0], Pow10(|a| - 1));
        Distribute(a[0], 1, Pow10(|a| - 1));
      } else if b[0] < a[0] {
        Grows(b[0] + 1, a[0], Pow10(|a| - 1));
        Distribute(b[0], 1, Pow10(|a| - 1));
      }
    }
  }

  lemma FirstDigit(digits: seq<nat>)
    requires digits != []
    ensures Number(digits) == digits[0] * Pow10(|digits| - 1) + Number(digits[1..])
  {
    assert digits == [digits[0]] + digits[1..];
    assert [digits[0]][..0] == [];
    assert Number([digits[0]]) == digits[0];
    NumberConcat([digits[0]], digits[1..]);
  }

  /** The digits on a common scale. */
  function Aligned(d: Decimal, scale: nat): seq<nat>
    requires d.scale <= scale
  {
    d.coefficient + Zeros(scale - d.scale)
  }

  lemma AlignedValue(d: Decimal, scale: nat)
    requires d.Normal() && d.scale <= scale
    ensures Number(Aligned(d, scale)) == d.Scaled(scale) && Digits(Aligned(d, scale))
    ensures if d.Zero() then d.Scaled(scale) == 0 else Trim(Aligned(d, scale)) && d.Scaled(scale) > 0
  {
    Padded(d.coefficient, scale - d.scale);
    if d.Zero() {
      assert Number([0]) == 0;
    } else {
      NonZeroLeads(d);
      NumberBound(d.coefficient);
      Multiple(Number(d.coefficient), Pow10(scale - d.scale));
    }
  }

  function Compare(a: Decimal, b: Decimal): int {
    if a.Zero() || b.Zero() then (if a.Zero() && b.Zero() then 0 else if a.Zero() then -1 else 1)
    else
      var scale := if a.scale < b.scale then b.scale else a.scale;
      var left, right := Aligned(a, scale), Aligned(b, scale);
      if |left| != |right| then (if |left| < |right| then -1 else 1)
      else if left == right then 0 else if Earlier(left, right) then -1 else 1
  }

  /** Comparison is the order of the values, on any common scale. */
  lemma CompareIsOrder(a: Decimal, b: Decimal, s: nat)
    requires a.Normal() && b.Normal() && a.scale <= s && b.scale <= s
    ensures Compare(a, b) < 0 <==> a.Scaled(s) < b.Scaled(s)
    ensures Compare(a, b) == 0 <==> a.Scaled(s) == b.Scaled(s)
  {
    var scale := if a.scale < b.scale then b.scale else a.scale;
    CompareOnCommonScale(a, b, scale);
    Rescale(a, scale, s);
    Rescale(b, scale, s);
    SameOrder(a.Scaled(scale), b.Scaled(scale), Pow10(s - scale));
  }

  lemma SameOrder(x: int, y: int, p: int)
    requires p > 0
    ensures x < y <==> x * p < y * p
    ensures x == y <==> x * p == y * p
  {
    Multiple(x - y, p);
    assert (x - y) * p == x * p - y * p;
  }

  lemma Rescale(d: Decimal, from: nat, to: nat)
    requires d.scale <= from <= to
    ensures d.Scaled(to) == d.Scaled(from) * Pow10(to - from)
  {
    CrossScale(Number(d.coefficient), from - d.scale, to - from);
  }

  lemma CompareOnCommonScale(a: Decimal, b: Decimal, scale: nat)
    requires a.Normal() && b.Normal() && scale == if a.scale < b.scale then b.scale else a.scale
    ensures Compare(a, b) < 0 <==> a.Scaled(scale) < b.Scaled(scale)
    ensures Compare(a, b) == 0 <==> a.Scaled(scale) == b.Scaled(scale)
  {
    AlignedValue(a, scale);
    AlignedValue(b, scale);
    hide Number, Earlier, Aligned, Digits;
    if !a.Zero() && !b.Zero() {
      var left, right := Aligned(a, scale), Aligned(b, scale);
      Longer(left, right);
      Longer(right, left);
      if |left| == |right| {
        EarlierIsLess(left, right);
        if Number(left) == Number(right) {
          SameLength(left, right);
        }
      }
    }
  }

  lemma NonZeroLeads(d: Decimal)
    requires d.Normal() && !d.Zero()
    ensures d.coefficient[0] != 0
  {
  }

  // ---------- Sum ----------

  /** The digit-by-digit sum, right to left. */
  method Add(a: Decimal, b: Decimal) returns (r: Result<Decimal>)
    requires a.Valid() && b.Valid()
    ensures var s := if a.scale < b.scale then b.scale else a.scale;
            Exact(r, a.Scaled(s) + b.Scaled(s), s)
  {
    hide Number, Exact, Aligned, Digits, Normalised, Widened, Decimal.Normal;
    var scale := if a.scale < b.scale then b.scale else a.scale;
    var left, right := Aligned(a, scale), Aligned(b, scale);
    AlignedValue(a, scale);
    AlignedValue(b, scale);
    var width := if |left| < |right| then |right| else |left|;
    left, right := Widened(left, width), Widened(right, width);
    var sum := SumDigits(left, right);
    NormalisedIsExact(sum, scale);
    r := Make(sum, scale);
  }

  function Widened(digits: seq<nat>, width: nat): (wide: seq<nat>)
    requires Digits(digits) && |digits| <= width
    ensures Digits(wide) && |wide| == width && Number(wide) == Number(digits)
  {
    Padded(digits, width - |digits|);
    Zeros(width - |digits|) + digits
  }

  method SumDigits(left: seq<nat>, right: seq<nat>) returns (sum: seq<nat>)
    requires |left| == |right| && Digits(left) && Digits(right)
    ensures Digits(sum) && Number(sum) == Number(left) + Number(right)
  {
    hide Number, Pow10;
    var width := |left|;
    var digits := new nat[width](_ => 0);
    var carry: nat, index: nat := 0, width;
    NoDigits();
    assert left[width..] == [] && right[width..] == [] && digits[width..] == [];
    while index > 0
      invariant index <= width && carry <= 1 && Digits(digits[index..])
      invariant Number(left[index..]) + Number(right[index..]) == carry * Pow10(width - index) + Number(digits[index..])
    {
      var digit := left[index - 1] + right[index - 1] + carry;
      ghost var done := digits[index..];
      digits[index - 1] := digit % 10;
      assert digits[index - 1..] == [digit % 10] + done;
      SumStep(left[index - 1..], right[index - 1..], digits[index - 1..], carry);
      assert left[index - 1..][1..] == left[index..] && right[index - 1..][1..] == right[index..];
      carry := digit / 10;
      index := index - 1;
    }
    assert left[0..] == left && right[0..] == right;
    sum := digits[..];
    assert digits[0..] == sum;
    if carry != 0 {
      FirstDigit([1] + sum);
      assert ([1] + sum)[1..] == sum;
      sum := [1] + sum;
    }
  }

  lemma NoDigits()
    ensures Number([]) == 0 && Pow10(0) == 1
  {
  }

  lemma SumStep(left: seq<nat>, right: seq<nat>, digits: seq<nat>, carry: nat)
    requires |left| == |right| == |digits| > 0
    requires digits[0] == (left[0] + right[0] + carry) % 10
    requires Number(left[1..]) + Number(right[1..]) == carry * Pow10(|left| - 1) + Number(digits[1..])
    ensures Number(left) + Number(right) == (left[0] + right[0] + carry) / 10 * Pow10(|left|) + Number(digits)
  {
    hide Number, Pow10;
    FirstDigit(left);
    FirstDigit(right);
    FirstDigit(digits);
    PowStep(|left|);
    SumArithmetic(left[0], Number(left[1..]), right[0], Number(right[1..]), digits[0], Number(digits[1..]), carry,
                  Pow10(|left| - 1));
  }

  lemma PowStep(n: nat)
    requires n > 0
    ensures Pow10(n) == 10 * Pow10(n - 1)
  {
  }

  lemma SumArithmetic(x: nat, xs: nat, y: nat, ys: nat, z: nat, zs: nat, carry: nat, p: nat)
    requires z == (x + y + carry) % 10 && xs + ys == carry * p + zs
    ensures x * p + xs + (y * p + ys) == (x + y + carry) / 10 * (10 * p) + (z * p + zs)
  {
    CarryOver(x, y, carry, p);
  }

  lemma CarryOver(x: nat, y: nat, carry: nat, p: nat)
    ensures var total := x + y + carry;
            x * p + y * p + carry * p == total / 10 * (10 * p) + total % 10 * p
  {
    var total := x + y + carry;
    Distribute(x + y, carry, p);
    Distribute(x, y, p);
    Distribute(total / 10 * 10, total % 10, p);
    Associate(total / 10, 10, p);
  }

  // ---------- Product ----------

  method Multiply(a: Decimal, b: Decimal) returns (r: Result<Decimal>)
    requires a.Valid() && b.Valid()
    ensures Exact(r, Number(a.coefficient) * Number(b.coefficient), a.scale + b.scale)
  {
    hide Number, Exact, Digits, Normalised;
    if a.Zero() || b.Zero() {
      ZeroProduct(a, b);
      return Ok(Decimal([0], 0));
    }
    var product := ProductDigits(a.coefficient, b.coefficient);
    NormalisedIsExact(product, a.scale + b.scale);
    r := Make(product, a.scale + b.scale);
  }

  lemma ZeroProduct(a: Decimal, b: Decimal)
    requires a.Zero() || b.Zero()
    ensures Exact(Ok(Decimal([0], 0)), Number(a.coefficient) * Number(b.coefficient), a.scale + b.scale)
  {
    assert Number([0]) == 0;
  }

  /** Schoolbook multiplication: one row per digit of `x`, added in place into the product. */
  method ProductDigits(x: seq<nat>, y: seq<nat>) returns (digits: seq<nat>)
    requires Digits(x) && Digits(y)
    ensures Digits(digits) && Number(digits) == Number(x) * Number(y)
  {
    hide Number, Pow10, RowPart;
    var n, m := |x|, |y|;
    var product := new nat[n + m](_ => 0);
    var left: nat := n;
    NoProduct(product[n..]);
    assert x[n..] == [];
    while left > 0
      invariant left <= n && (forall k :: 0 <= k < left ==> product[k] == 0) && Digits(product[..])
      invariant Number(product[left..]) == Number(x[left..]) * Number(y)
    {
      AddRow(product, x, y, left - 1);
      FirstDigit(x[left - 1..]);
      assert x[left - 1..][1..] == x[left..];
      RowSum(x[left - 1], Pow10(n - left), Number(x[left..]), Number(y));
      left := left - 1;
    }
    digits := product[..];
    assert product[0..] == digits && x[0..] == x;
  }

  lemma RowSum(digit: nat, p: nat, rest: nat, y: nat)
    ensures (digit * p + rest) * y == rest * y + digit * y * p
  {
    Distribute(digit * p, rest, y);
    Associate(digit, p, y);
    Associate(digit, y, p);
  }

  /** Adds `x[l] * y`, shifted, into the product from index `l` on. */
  method AddRow(product: array<nat>, x: seq<nat>, y: seq<nat>, l: nat)
    requires l < |x| && product.Length == |x| + |y| && Digits(x) && Digits(y) && Digits(product[..])
    requires forall k :: 0 <= k <= l ==> product[k] == 0
    modifies product
    ensures Digits(product[..]) && forall k :: 0 <= k < l ==> product[k] == 0
    ensures Number(product[l..]) == old(Number(product[l + 1..])) + x[l] * Number(y) * Pow10(|x| - 1 - l)
  {
    hide Number, Pow10, RowPart;
    ghost var start := product[l..];
    RowStart(x, y, l, start);
    assert start[1..] == product[l + 1..];
    var carry: nat, right: nat := 0, |y|;
    while right > 0
      invariant right <= |y| && carry <= 9 && (forall k :: 0 <= k <= l ==> product[k] == 0) && Digits(product[..])
      invariant Number(product[l..]) + carry * Pow10(|x| + |y| - 1 - l - right) == Number(start)
                + RowPart(x, y, l, right)
    {
      var value: nat := product[l + right] + x[l] * y[right - 1] + carry;
      DigitBound(x[l], y[right - 1]);
      ghost var before := product[l..];
      var low: nat := value % 10;
      product[l + right] := low;
      assert product[l..] == before[right := low];
      RowStep(x, y, l, right, before, carry);
      carry := value / 10;
      right := right - 1;
    }
    ghost var before := product[l..];
    product[l] := product[l] + carry;
    assert product[l..] == before[0 := carry];
    NumberUpdate(before, 0, carry);
    RowWhole(x, y, l);
  }

  lemma RowWhole(x: seq<nat>, y: seq<nat>, l: nat)
    requires l < |x|
    ensures RowPart(x, y, l, 0) == x[l] * Number(y) * Pow10(|x| - 1 - l)
  {
    assert y[0..] == y;
  }

  lemma NoProduct(zeros: seq<nat>)
    requires forall i :: 0 <= i < |zeros| ==> zeros[i] == 0
    ensures Number(zeros) == 0 && Number([]) == 0
  {
    assert zeros == Zeros(|zeros|);
    NumberZeros(|zeros|);
  }

  lemma RowStart(x: seq<nat>, y: seq<nat>, l: nat, start: seq<nat>)
    requires l < |x| && start != [] && start[0] == 0
    ensures Number(start) == Number(start[1..]) && RowPart(x, y, l, |y|) == 0
  {
    FirstDigit(start);
    assert y[|y|..] == [];
  }

  /** What the digits of `y` from `right` on contribute to the row of `x[l]`. */
  function RowPart(x: seq<nat>, y: seq<nat>, l: nat, right: nat): nat
    requires l < |x| && right <= |y|
  {
    x[l] * Number(y[right..]) * Pow10(|x| - 1 - l)
  }

  lemma DigitBound(a: nat, b: nat)
    requires a <= 9 && b <= 9
    ensures a * b <= 81
  {
  }

  lemma {:induction false} NumberUpdate(digits: seq<nat>, j: nat, v: nat)
    requires j < |digits|
    ensures Number(digits[j := v]) + digits[j] * Pow10(|digits| - 1 - j) == Number(digits) + v * Pow10(|digits| - 1 - j)
  {
    var a, b := digits[..j], digits[j + 1..];
    assert digits == a + ([digits[j]] + b) && digits[j := v] == a + ([v] + b);
    NumberConcat(a, [digits[j]] + b);
    NumberConcat(a, [v] + b);
    FirstDigit([digits[j]] + b);
    FirstDigit([v] + b);
    assert ([digits[j]] + b)[1..] == b == ([v] + b)[1..];
  }

  lemma RowStep(x: seq<nat>, y: seq<nat>, l: nat, right: nat, before: seq<nat>, carry: nat)
    requires l < |x| && 0 < right <= |y| && |before| == |x| + |y| - l
    ensures var value: nat := before[right] + x[l] * y[right - 1] + carry;
            (Number(before[right := value % 10]) + value / 10 * Pow10(|x| + |y| - l - right) + RowPart(x, y, l, right)
             == Number(before) + carry * Pow10(|x| + |y| - l - 1 - right) + RowPart(x, y, l, right - 1))
  {
    hide Number, Pow10;
    var value: nat := before[right] + x[l] * y[right - 1] + carry;
    NumberUpdate(before, right, value % 10);
    FirstDigit(y[right - 1..]);
    assert y[right - 1..][1..] == y[right..];
    PowStep(|x| + |y| - l - right);
    Pow10Sum(|y| - right, |x| - 1 - l);
    RowArithmetic(before[right], x[l], y[right - 1], carry, Pow10(|y| - right), Pow10(|x| - 1 - l), Number(y[right..]));
  }

  lemma RowArithmetic(held: nat, x: nat, y: nat, carry: nat, q: nat, r: nat, rest: nat)
    ensures var value, w := held + x * y + carry, q * r;
            value % 10 * w + value / 10 * (10 * w) + x * rest * r == held * w + carry * w + x * (y * q + rest) * r
  {
    var value, w := held + x * y + carry, q * r;
    Associate(value / 10, 10, w);
    Distribute(value / 10 * 10, value % 10, w);
    Distribute(held + x * y, carry, w);
    Distribute(held, x * y, w);
    assert x * (y * q + rest) == x * (y * q) + x * rest;
    Distribute(x * (y * q), x * rest, r);
    Associate(x, y, q);
    Associate(x * y, q, r);
  }

  // ---------- Tokens ----------

  predicate IsDigit(c: char) { '0' <= c <= '9' }

  function DigitOf(c: char): (d: nat)
    requires IsDigit(c)
    ensures d <= 9
  {
    c as int - '0' as int
  }

  function CharOf(d: nat): (c: char)
    requires d <= 9
    ensures IsDigit(c) && DigitOf(c) == d
  {
    ('0' as int + d) as char
  }

  function Text(digits: seq<nat>): (text: string)
    requires Digits(digits)
    ensures |text| == |digits| && forall i :: 0 <= i < |digits| ==> text[i] == CharOf(digits[i])
  {
    seq(|digits|, i requires 0 <= i < |digits| => CharOf(digits[i]))
  }

  /** The position of the first decimal point, else the length. */
  function Dot(token: string): (dot: nat)
    ensures dot <= |token| && (forall i :: 0 <= i < dot ==> token[i] != '.') && (dot < |token| ==> token[dot] == '.')
  {
    if token == "" || token[0] == '.' then 0 else 1 + Dot(token[1..])
  }

  /** An unsigned fixed-point token of at most 96 characters, without needless leading zeros or a bare point. */
  predicate Grammar(token: string) {
    var dot := Dot(token);
    && 0 < |token| <= 96 && 0 < dot && !(dot > 1 && token[0] == '0') && dot + 1 != |token|
    && forall i :: 0 <= i < |token| && i != dot ==> IsDigit(token[i])
  }

  function ValuesOf(text: string): (digits: seq<nat>)
    requires forall i :: 0 <= i < |text| ==> IsDigit(text[i])
    ensures Digits(digits)
  {
    seq(|text|, i requires 0 <= i < |text| => DigitOf(text[i]))
  }

  function TokenDigits(token: string): (digits: seq<nat>)
    requires Grammar(token)
    ensures Digits(digits)
  {
    var dot := Dot(token);
    ValuesOf(token[..dot]) + if dot < |token| then ValuesOf(token[dot + 1..]) else []
  }

  function Fraction(token: string): nat { if Dot(token) < |token| then |token| - Dot(token) - 1 else 0 }

  function Parsed(token: string): Result<Decimal> {
    if Grammar(token) then Normalised(TokenDigits(token), Fraction(token)) else Err(23)
  }

  method Parse(token: string) returns (r: Result<Decimal>)
    ensures r == Parsed(token)
    ensures if Grammar(token) then Exact(r, Number(TokenDigits(token)), Fraction(token)) else r == Err(23)
  {
    if token == "" || |token| > 96 {
      return Err(23);
    }
    var dot := Dot(token);
    if dot == 0 || (dot > 1 && token[0] == '0') || dot + 1 == |token| {
      return Err(23);
    }
    hide Normalised, Exact, Number;
    var coefficient: seq<nat> := [];
    var index := 0;
    while index < |token|
      invariant index <= |token| && Digits(coefficient)
      invariant forall i :: 0 <= i < index && i != dot ==> IsDigit(token[i])
      invariant |coefficient| == if index <= dot then index else index - 1
      invariant forall i :: 0 <= i < index && i != dot ==>
                coefficient[if i < dot then i else i - 1] == DigitOf(token[i])
    {
      if index != dot {
        if !IsDigit(token[index]) {
          return Err(23);
        }
        coefficient := coefficient + [DigitOf(token[index])];
      }
      index := index + 1;
    }
    assert coefficient == TokenDigits(token);
    NormalisedIsExact(coefficient, Fraction(token));
    r := Make(coefficient, Fraction(token));
  }

  /** The digits with at least one before the point. */
  function Shown(d: Decimal): (digits: seq<nat>)
    requires d.Normal()
    ensures Digits(digits) && |digits| > d.scale
  {
    if |d.coefficient| <= d.scale then Zeros(d.scale - |d.coefficient| + 1) + d.coefficient else d.coefficient
  }

  /** The canonical token. */
  function Str(d: Decimal): string
    requires d.Normal()
  {
    if d.scale == 0 then Text(d.coefficient)
    else
      var digits := Shown(d);
      Text(digits[..|digits| - d.scale]) + "." + Text(digits[|digits| - d.scale..])
  }

  lemma DotAt(token: string, dot: nat)
    requires dot <= |token| && (forall i :: 0 <= i < dot ==> token[i] != '.') && (dot < |token| ==> token[dot] == '.')
    ensures Dot(token) == dot
  {
  }

  lemma ReadsText(digits: seq<nat>)
    requires Digits(digits) && 0 < |digits| <= 96 && (|digits| > 1 ==> digits[0] != 0)
    ensures Grammar(Text(digits)) && Fraction(Text(digits)) == 0 && TokenDigits(Text(digits)) == digits
  {
    var token := Text(digits);
    DotAt(token, |token|);
    assert token[..|token|] == token;
    assert ValuesOf(token) == digits;
  }

  lemma ReadsPoint(left: seq<nat>, right: seq<nat>)
    requires Digits(left) && Digits(right) && left != [] && right != [] && |left| + 1 + |right| <= 96
    requires |left| > 1 ==> left[0] != 0
    ensures var token := Text(left) + "." + Text(right);
            Grammar(token) && Fraction(token) == |right| && TokenDigits(token) == left + right
  {
    hide Text, ValuesOf, Number;
    var token, n := Text(left) + "." + Text(right), |left|;
    TextDigits(left);
    TextDigits(right);
    assert token[..n] == Text(left) && token[n] == '.' && token[n + 1..] == Text(right);
    PointGrammar(left, right);
    DotAt(token, n);
  }

  /** The text of digits are digit characters that read back as those digits. */
  lemma TextDigits(digits: seq<nat>)
    requires Digits(digits)
    ensures |Text(digits)| == |digits| && forall i :: 0 <= i < |digits| ==> IsDigit(Text(digits)[i])
    ensures forall i :: 0 <= i < |digits| ==> Text(digits)[i] != '.'
    ensures ValuesOf(Text(digits)) == digits
    ensures digits != [] && digits[0] != 0 ==> Text(digits)[0] != '0'
  {
  }

  lemma PointGrammar(left: seq<nat>, right: seq<nat>)
    requires Digits(left) && Digits(right) && left != [] && right != [] && |left| + 1 + |right| <= 96
    requires |left| > 1 ==> left[0] != 0
    ensures var token := Text(left) + "." + Text(right);
            Grammar(token) && Dot(token) == |left|
  {
    hide Text, ValuesOf, Dot;
    var token, n := Text(left) + "." + Text(right), |left|;
    TextDigits(left);
    TextDigits(right);
    assert forall i :: 0 <= i < n ==> token[i] == Text(left)[i];
    assert forall i :: n < i < |token| ==> token[i] == Text(right)[i - n - 1];
    DotAt(token, n);
  }

  lemma ShownValue(d: Decimal)
    requires d.Normal()
    ensures Number(Shown(d)) == Number(d.coefficient)
    ensures |Shown(d)| - d.scale > 1 ==> Shown(d)[0] != 0
    ensures d.scale == 0 ==> Shown(d) == d.coefficient
  {
    Padded(d.coefficient, |Shown(d)| - |d.coefficient|);
  }

  /** Reading a canonical token back gives the same decimal. */
  lemma RoundTrip(d: Decimal)
    requires d.Valid() && |Str(d)| <= 96
    ensures Parsed(Str(d)) == Ok(d)
  {
    hide Number, Grammar, TokenDigits, Fraction, Shown, Reduced, Text;
    var digits := Shown(d);
    ShownValue(d);
    ReducedValue(digits, d.scale);
    NormalIsUnique(d, Reduced(digits, d.scale), Number(digits), d.scale);
    if d.scale == 0 {
      ReadsText(digits);
    } else {
      var n := |digits| - d.scale;
      ReadsPoint(digits[..n], digits[n..]);
      assert digits[..n] + digits[n..] == digits;
    }
  }
}
