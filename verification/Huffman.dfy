/** Canonical Huffman codes (section 3.2.2 of RFC 1951) and the 15-bit lookup table built for them. */
module Huffman {
  import opened Arithmetic
  import opened Feed
  import opened Bits

  const SLOTS := 0x8000

  // ---------- The codes ----------

  predicate Lengths(lengths: seq<nat>) { forall s :: 0 <= s < |lengths| ==> lengths[s] <= 15 }

  function Count(lengths: seq<nat>, n: nat): nat {
    if lengths == [] then 0 else Count(lengths[..|lengths| - 1], n) + if lengths[|lengths| - 1] == n then 1 else 0
  }

  /** The smallest code of each length: codes of one length follow those of the shorter ones. */
  function FirstCode(lengths: seq<nat>, n: nat): nat {
    if n <= 1 then 0 else 2 * (FirstCode(lengths, n - 1) + Count(lengths, n - 1))
  }

  /** Codes of one length are consecutive in symbol order. */
  function Code(lengths: seq<nat>, s: nat): nat
    requires s < |lengths|
  {
    FirstCode(lengths, lengths[s]) + Count(lengths[..s], lengths[s])
  }

  predicate Assigned(lengths: seq<nat>, s: nat) { s < |lengths| && 1 <= lengths[s] <= 15 }

  /** A symbol's code as it appears in the input: most significant bit first. */
  function CodeOf(lengths: seq<nat>, s: nat): seq<Bit>
    requires Assigned(lengths, s)
  {
    CodeBits(Code(lengths, s), lengths[s])
  }

  /** How many of the 2^15 words of 15 bits begin with a code of length `n`. */
  function Weight(n: nat): nat { if 1 <= n <= 15 then Pow2(15 - n) else 0 }

  /** The Kraft sum times 2^15. */
  function Kraft(lengths: seq<nat>): nat {
    if lengths == [] then 0 else Kraft(lengths[..|lengths| - 1]) + Weight(lengths[|lengths| - 1])
  }

  function KraftUpTo(lengths: seq<nat>, n: nat): nat {
    if n == 0 then 0 else KraftUpTo(lengths, n - 1) + Count(lengths, n) * Weight(n)
  }

  lemma {:induction false} KraftUpToPush(lengths: seq<nat>, n: nat)
    requires lengths != []
    ensures var last := lengths[|lengths| - 1];
            KraftUpTo(lengths, n) == KraftUpTo(lengths[..|lengths| - 1], n) + if 1 <= last <= n then Weight(last) else 0
  {
    if n > 0 {
      KraftUpToPush(lengths, n - 1);
      hide Weight;
      Distribute(Count(lengths[..|lengths| - 1], n), 1, Weight(n));
    }
  }

  lemma {:induction false} KraftUpToEmpty(n: nat)
    ensures KraftUpTo([], n) == 0
  {
    if n > 0 {
      KraftUpToEmpty(n - 1);
    }
  }

  /** Counting by symbol and counting by length agree. */
  lemma {:induction false} KraftByLength(lengths: seq<nat>)
    requires Lengths(lengths)
    ensures Kraft(lengths) == KraftUpTo(lengths, 15)
  {
    if lengths == [] {
      KraftUpToEmpty(15);
    } else {
      KraftByLength(lengths[..|lengths| - 1]);
      KraftUpToPush(lengths, 15);
    }
  }

  lemma {:induction false} KraftGrows(lengths: seq<nat>, m: nat, n: nat)
    requires m <= n
    ensures KraftUpTo(lengths, m) <= KraftUpTo(lengths, n)
  {
    if m < n {
      KraftGrows(lengths, m, n - 1);
      assert Count(lengths, n) * Weight(n) >= 0;
    }
  }

  lemma {:induction false} FirstCodeStart(lengths: seq<nat>, n: nat)
    requires 1 <= n <= 15
    ensures FirstCode(lengths, n) * Weight(n) == KraftUpTo(lengths, n - 1)
  {
    hide Count;
    if n == 1 {
      assert KraftUpTo(lengths, 0) == 0;
    } else {
      FirstCodeStart(lengths, n - 1);
      WeightHalves(n);
      hide Weight;
      var f, c, w := FirstCode(lengths, n - 1), Count(lengths, n - 1), Weight(n);
      Doubling(f, c, w);
    }
  }

  lemma WeightHalves(n: nat)
    requires 1 < n <= 15
    ensures Weight(n - 1) == 2 * Weight(n)
  {
  }

  lemma Doubling(f: nat, c: nat, w: nat)
    ensures 2 * (f + c) * w == f * (2 * w) + c * (2 * w)
  {
  }

  lemma {:induction false} CountGrows(lengths: seq<nat>, i: nat, j: nat, n: nat)
    requires i <= j <= |lengths|
    ensures Count(lengths[..i], n) <= Count(lengths[..j], n)
    ensures i < j && lengths[i] == n ==> Count(lengths[..i], n) + 1 <= Count(lengths[..j], n)
    decreases j
  {
    if i < j {
      assert lengths[..j][..j - 1] == lengths[..j - 1];
      CountGrows(lengths, i, j - 1, n);
    }
  }

  /** The first 15-bit word that begins with a symbol's code. */
  function Start(lengths: seq<nat>, s: nat): nat
    requires Assigned(lengths, s)
  {
    Code(lengths, s) * Weight(lengths[s])
  }

  /** Symbol intervals lie one after another below the Kraft sum. */
  lemma StartRange(lengths: seq<nat>, s: nat)
    requires Assigned(lengths, s)
    ensures KraftUpTo(lengths, lengths[s] - 1) <= Start(lengths, s)
    ensures Start(lengths, s) + Weight(lengths[s]) <= KraftUpTo(lengths, lengths[s])
  {
    hide Weight, Count, FirstCode;
    var n := lengths[s];
    FirstCodeStart(lengths, n);
    CountGrows(lengths, s, |lengths|, n);
    assert lengths[..|lengths|] == lengths;
    var f, b, c, w := FirstCode(lengths, n), Count(lengths[..s], n), Count(lengths, n), Weight(n);
    Distribute(f, b, w);
    Grows(b + 1, c, w);
    Distribute(b, 1, w);
  }

  lemma StartsApart(lengths: seq<nat>, a: nat, b: nat)
    requires Assigned(lengths, a) && Assigned(lengths, b) && a != b
    ensures Start(lengths, a) + Weight(lengths[a]) <= Start(lengths, b)
            || Start(lengths, b) + Weight(lengths[b]) <= Start(lengths, a)
  {
    StartRange(lengths, a);
    StartRange(lengths, b);
    if lengths[a] < lengths[b] {
      KraftGrows(lengths, lengths[a], lengths[b] - 1);
    } else if lengths[b] < lengths[a] {
      KraftGrows(lengths, lengths[b], lengths[a] - 1);
    } else {
      SameLengthApart(lengths, if a < b then a else b, if a < b then b else a);
    }
  }

  lemma SameLengthApart(lengths: seq<nat>, a: nat, b: nat)
    requires Assigned(lengths, a) && Assigned(lengths, b) && a < b && lengths[a] == lengths[b]
    ensures Start(lengths, a) + Weight(lengths[a]) <= Start(lengths, b)
  {
    var n := lengths[a];
    CountGrows(lengths, a, b, n);
    hide Weight, Count, FirstCode;
    Grows(Code(lengths, a) + 1, Code(lengths, b), Weight(n));
    Distribute(Code(lengths, a), 1, Weight(n));
  }

  /** A Kraft sum of at most 1 leaves room for every code. */
  lemma CodeFits(lengths: seq<nat>, s: nat)
    requires Lengths(lengths) && Assigned(lengths, s) && Kraft(lengths) <= SLOTS
    ensures Code(lengths, s) < Pow2(lengths[s])
  {
    var n := lengths[s];
    StartRange(lengths, s);
    KraftGrows(lengths, n, 15);
    KraftByLength(lengths);
    Pow2Sum(n, 15 - n);
    Words();
    if Code(lengths, s) >= Pow2(n) {
      Grows(Pow2(n), Code(lengths, s), Weight(n));
    }
  }

  lemma Words()
    ensures Pow2(15) == SLOTS
  {
    assert Pow2(5) == 32 && Pow2(10) == 1024 by {
      Pow2Sum(5, 5);
    }
    Pow2Sum(5, 10);
  }

  lemma {:induction false} ShiftBounds(v: nat, k: nat)
    ensures ShiftRight(v, k) * Pow2(k) <= v < (ShiftRight(v, k) + 1) * Pow2(k)
  {
    if k > 0 {
      ShiftBounds(v / 2, k - 1);
      Doubled(ShiftRight(v, k), Pow2(k - 1), v);
    }
  }

  lemma Doubled(q: nat, p: nat, v: nat)
    requires q * p <= v / 2 < (q + 1) * p
    ensures q * (2 * p) <= v < (q + 1) * (2 * p)
  {
    Rearrange(q, p);
    Rearrange(q + 1, p);
  }

  lemma Rearrange(q: int, p: int)
    ensures q * (2 * p) == 2 * (q * p)
  {
  }

  /** No code is the beginning of another. */
  lemma PrefixFree(lengths: seq<nat>, a: nat, b: nat)
    requires Lengths(lengths) && Assigned(lengths, a) && Assigned(lengths, b) && Kraft(lengths) <= SLOTS
    requires CodeOf(lengths, a) <= CodeOf(lengths, b)
    ensures a == b
  {
    hide Weight, Count, FirstCode;
    if a != b {
      var na, nb, ca, cb := lengths[a], lengths[b], Code(lengths, a), Code(lengths, b);
      CodeFits(lengths, a);
      CodeFits(lengths, b);
      ValueOfCodeBits(ca, na, cb, nb);
      ShiftBounds(cb, nb - na);
      StartsApart(lengths, a, b);
      WeightRatio(na, nb);
      Inside(ca, Pow2(nb - na), cb, Weight(nb));
      assert false;
    }
  }

  lemma WeightRatio(m: nat, n: nat)
    requires 1 <= m <= n <= 15
    ensures Weight(m) == Pow2(n - m) * Weight(n) && Weight(n) > 0
  {
    Pow2Sum(n - m, 15 - n);
  }

  lemma Inside(ca: nat, k: nat, cb: nat, w: nat)
    requires ca * k <= cb < (ca + 1) * k && w > 0
    ensures ca * (k * w) <= cb * w && cb * w + w <= ca * (k * w) + k * w
  {
    Grows(ca * k, cb, w);
    Grows(cb + 1, (ca + 1) * k, w);
    assert (ca + 1) * k * w == ca * (k * w) + k * w;
    assert ca * k * w == ca * (k * w);
    assert (cb + 1) * w == cb * w + w;
  }

  // ---------- The table ----------

  ghost predicate Matches(lengths: seq<nat>, s: nat, word: nat) {
    Assigned(lengths, s) && CodeOf(lengths, s) <= LowBits(word, 15)
  }

  /** At most one symbol's code begins a word, so no two symbols claim one slot. */
  lemma MatchIsUnique(lengths: seq<nat>, a: nat, b: nat, word: nat)
    requires Lengths(lengths) && Kraft(lengths) <= SLOTS && Matches(lengths, a, word) && Matches(lengths, b, word)
    ensures a == b
  {
    hide LowBits, CodeBits, Code;
    if lengths[a] <= lengths[b] {
      PrefixesNest(CodeOf(lengths, a), CodeOf(lengths, b), LowBits(word, 15));
      PrefixFree(lengths, a, b);
    } else {
      PrefixesNest(CodeOf(lengths, b), CodeOf(lengths, a), LowBits(word, 15));
      PrefixFree(lengths, b, a);
    }
  }

  lemma PrefixesNest(a: seq<Bit>, b: seq<Bit>, all: seq<Bit>)
    requires a <= all && b <= all && |a| <= |b|
    ensures a <= b
  {
    assert a == all[..|a|] == b[..|a|];
  }

  /** Each word's entry is `symbol << 4 | length` for the symbol whose code begins the word, or 0 when none does. */
  ghost predicate Filled(table: seq<nat>, lengths: seq<nat>, upto: nat) {
    && |table| == SLOTS
    && (forall word: nat, s: nat :: word < SLOTS && s < upto && Matches(lengths, s, word) ==>
      table[word] == 16 * s + lengths[s])
    && (forall word: nat :: word < SLOTS && table[word] != 0 ==> exists s: nat :: s < upto && Matches(lengths, s, word))
  }

  ghost predicate IsTable(table: seq<nat>, lengths: seq<nat>) { Filled(table, lengths, |lengths|) }

  /** A slot belongs to a symbol exactly when its low bits are the reversed code. */
  lemma MatchesByRemainder(lengths: seq<nat>, s: nat, reversed: nat, word: nat)
    requires Assigned(lengths, s) && reversed < Pow2(lengths[s]) && LowBits(reversed, lengths[s]) == CodeOf(lengths, s)
    ensures Matches(lengths, s, word) <==> Hits(word, Pow2(lengths[s]), reversed)
  {
    hide Code, LowBits, CodeBits;
    var n := lengths[s];
    LowBitsPrefix(word, n, 15);
    LowBitsModulo(word, n);
    LowBitsModulo(reversed, n);
    ValueOfLowBits(reversed, n);
    assert CodeOf(lengths, s) <= LowBits(word, 15) <==> CodeOf(lengths, s) == LowBits(word, 15)[..n];
    if word % Pow2(n) == reversed {
      assert LowBits(word, n) == LowBits(reversed, n);
    }
  }

  /** The code's bits in input order. */
  method Reversed(code: nat, n: nat) returns (reversed: nat)
    requires n <= 15
    ensures reversed < Pow2(n) && LowBits(reversed, n) == CodeBits(code, n)
  {
    hide CodeBits, LowBits, Pow2;
    NoBits(code, 0);
    var c := code;
    reversed := 0;
    var bit := 0;
    while bit < n
      invariant bit <= n && reversed < Pow2(bit)
      invariant CodeBits(c, n - bit) + LowBits(reversed, bit) == CodeBits(code, n)
    {
      ReverseStep(c, n - bit, reversed, bit);
      reversed := 2 * reversed + c % 2;
      c := c / 2;
      bit := bit + 1;
    }
    NoBits(c, 0);
    assert [] + LowBits(reversed, n) == LowBits(reversed, n);
  }

  lemma NoBits(c: nat, v: nat)
    ensures Pow2(0) == 1 && CodeBits(c, 0) == [] && LowBits(v, 0) == []
  {
  }

  lemma ReverseStep(c: nat, m: nat, reversed: nat, bit: nat)
    requires m > 0 && reversed < Pow2(bit)
    ensures 2 * reversed + c % 2 < Pow2(bit + 1)
    ensures CodeBits(c / 2, m - 1) + LowBits(2 * reversed + c % 2, bit + 1) == CodeBits(c, m) + LowBits(reversed, bit)
  {
    var low := 2 * reversed + c % 2;
    assert low / 2 == reversed && low % 2 == c % 2;
    assert LowBits(low, bit + 1) == [c % 2 == 1] + LowBits(reversed, bit);
  }

  method CountLengths(lengths: seq<nat>) returns (counts: array<nat>)
    requires Lengths(lengths)
    ensures fresh(counts) && counts.Length == 16 && counts[0] == 0
    ensures forall n :: 1 <= n < 16 ==> counts[n] == Count(lengths, n)
  {
    counts := new nat[16](_ => 0);
    var symbol := 0;
    while symbol < |lengths|
      invariant symbol <= |lengths| && forall n :: 0 <= n < 16 ==> counts[n] == Count(lengths[..symbol], n)
    {
      assert lengths[..symbol + 1][..symbol] == lengths[..symbol];
      counts[lengths[symbol]] := counts[lengths[symbol]] + 1;
      symbol := symbol + 1;
    }
    assert lengths[..symbol] == lengths;
    counts[0] := 0;
  }

  /** Refuses exactly the over-subscribed length vectors. */
  method Fits(counts: array<nat>, ghost lengths: seq<nat>) returns (fits: bool)
    requires Lengths(lengths) && counts.Length == 16 && forall n :: 1 <= n < 16 ==> counts[n] == Count(lengths, n)
    ensures fits <==> Kraft(lengths) <= SLOTS
  {
    hide Count, Weight;
    Words();
    KraftByLength(lengths);
    var left, length := 1, 1;
    while length < 16
      invariant 1 <= length <= 16 && left >= 0
      invariant left * Pow2(16 - length) == SLOTS - KraftUpTo(lengths, length - 1)
    {
      LeftStep(lengths, left, length);
      left := 2 * left - counts[length];
      if left < 0 {
        KraftGrows(lengths, length, 15);
        Multiple(left, Pow2(15 - length));
        return false;
      }
      length := length + 1;
    }
    return true;
  }

  lemma LeftStep(lengths: seq<nat>, left: int, length: nat)
    requires 1 <= length < 16
    ensures (2 * left - Count(lengths, length)) * Pow2(15 - length) + KraftUpTo(lengths, length)
         == left * Pow2(16 - length) + KraftUpTo(lengths, length - 1)
  {
    hide Count;
    var c, w := Count(lengths, length), Pow2(15 - length);
    assert Weight(length) == w && Pow2(16 - length) == 2 * w;
    hide Weight, Pow2;
    Owed(left, c, w);
    Rearrange(left, w);
  }

  lemma Owed(left: int, c: int, w: int)
    ensures (2 * left - c) * w == 2 * (left * w) - c * w
  {
  }

  method FirstCodes(counts: array<nat>, ghost lengths: seq<nat>) returns (next: array<nat>)
    requires counts.Length == 16 && counts[0] == 0 && forall n :: 1 <= n < 16 ==> counts[n] == Count(lengths, n)
    ensures fresh(next) && next.Length == 16 && forall n :: 1 <= n < 16 ==> next[n] == FirstCode(lengths, n)
  {
    hide Count;
    next := new nat[16](_ => 0);
    var length, code := 1, 0;
    while length < 16
      invariant 1 <= length <= 16 && code == if length == 1 then 0 else FirstCode(lengths, length - 1)
      invariant forall n :: 1 <= n < length ==> next[n] == FirstCode(lengths, n)
    {
      code := 2 * (code + counts[length - 1]);
      next[length] := code;
      length := length + 1;
    }
  }

  /** Whether a word's low bits are a reversed code. */
  predicate Hits(word: nat, step: nat, reversed: nat)
    requires step > 0
  {
    word % step == reversed
  }

  lemma FirstHit(step: nat, reversed: nat)
    requires reversed < step
    ensures Hits(reversed, step, reversed) && forall word: nat :: word < reversed ==> !Hits(word, step, reversed)
  {
  }

  lemma NextHit(index: nat, p: nat, r: nat)
    requires r < p && Hits(index, p, r)
    ensures Hits(index + p, p, r) && forall word: nat :: index < word < index + p ==> !Hits(word, p, r)
  {
    var q := index / p;
    assert index == q * p + r;
    Distribute(q, 1, p);
    Remainder(index + p, p, q + 1, r);
    forall word: nat | index < word < index + p
      ensures word % p != r
    {
      if r + (word - index) < p {
        Remainder(word, p, q, r + (word - index));
      } else {
        Remainder(word, p, q + 1, r + (word - index) - p);
      }
    }
  }

  /** Writes one symbol's entry into every slot whose low bits are its reversed code. */
  method FillSlots(table: array<nat>, reversed: nat, step: nat, entry: nat)
    requires table.Length == SLOTS && reversed < step
    modifies table
    ensures forall word: nat :: word < SLOTS ==>
            table[word] == if Hits(word, step, reversed) then entry else old(table[word])
  {
    hide Hits;
    FirstHit(step, reversed);
    var index := reversed;
    while index < table.Length
      invariant reversed <= index && Hits(index, step, reversed)
      invariant forall word: nat :: word < SLOTS ==>
                                      table[word] == if word < index && Hits(word, step, reversed) then entry
                                                     else old(table[word])
      decreases table.Length - index
    {
      NextHit(index, step, reversed);
      table[index] := entry;
      index := index + step;
    }
  }

  /** Builds the lookup table of a length vector, or refuses it. */
  method Build(lengths: seq<nat>) returns (r: Result<seq<nat>>)
    requires Lengths(lengths)
    ensures Kraft(lengths) > SLOTS ==> r == Err(21)
    ensures Kraft(lengths) <= SLOTS ==> r.Ok? && IsTable(r.value, lengths)
  {
    hide Matches, Kraft, FirstCode;
    var counts := CountLengths(lengths);
    var fits := Fits(counts, lengths);
    if !fits {
      return Err(21);
    }
    var next := FirstCodes(counts, lengths);
    var table := new nat[SLOTS](_ => 0);
    var symbol := 0;
    while symbol < |lengths|
      invariant symbol <= |lengths| && Filled(table[..], lengths, symbol)
      invariant forall n :: 1 <= n < 16 ==> next[n] == FirstCode(lengths, n) + Count(lengths[..symbol], n)
    {
      var length := lengths[symbol];
      ghost var before := table[..];
      if length != 0 {
        var code := next[length];
        next[length] := code + 1;
        var reversed := Reversed(code, length);
        FillSlots(table, reversed, Pow2(length), 16 * symbol + length);
        FilledSymbol(before, table[..], lengths, symbol, reversed);
      } else {
        FilledSkip(before, lengths, symbol);
      }
      assert lengths[..symbol + 1][..symbol] == lengths[..symbol];
      symbol := symbol + 1;
    }
    return Ok(table[..]);
  }

  lemma FilledSymbol(before: seq<nat>, after: seq<nat>, lengths: seq<nat>, s: nat, reversed: nat)
    requires Lengths(lengths) && Kraft(lengths) <= SLOTS && Assigned(lengths, s) && Filled(before, lengths, s)
    requires reversed < Pow2(lengths[s]) && LowBits(reversed, lengths[s]) == CodeOf(lengths, s)
    requires |after| == SLOTS && forall word: nat :: word < SLOTS ==>
               after[word] == if Hits(word, Pow2(lengths[s]), reversed) then 16 * s + lengths[s] else before[word]
    ensures Filled(after, lengths, s + 1)
  {
    hide Matches, Kraft, Code, CodeOf, LowBits;
    forall word: nat | word < SLOTS
      ensures forall t: nat :: t < s + 1 && Matches(lengths, t, word) ==> after[word] == 16 * t + lengths[t]
      ensures after[word] != 0 ==> exists t: nat :: t < s + 1 && Matches(lengths, t, word)
    {
      MatchesByRemainder(lengths, s, reversed, word);
      if Matches(lengths, s, word) {
        forall t: nat | t <= s && Matches(lengths, t, word)
          ensures t == s
        {
          MatchIsUnique(lengths, s, t, word);
        }
      }
    }
  }

  lemma FilledSkip(table: seq<nat>, lengths: seq<nat>, s: nat)
    requires Filled(table, lengths, s) && s < |lengths| && lengths[s] == 0
    ensures Filled(table, lengths, s + 1)
  {
    forall word: nat, t: nat | word < SLOTS && t < s + 1 && Matches(lengths, t, word)
      ensures t < s
    {
    }
    hide Matches;
  }

  /** Looking a word up decodes exactly: the entry is a symbol's if and only if that symbol's code begins the word. */
  lemma LookupDecodes(table: seq<nat>, lengths: seq<nat>, word: nat)
    requires Lengths(lengths) && Kraft(lengths) <= SLOTS && IsTable(table, lengths) && word < SLOTS
    ensures table[word] % 16 != 0 ==>
            Matches(lengths, table[word] / 16, word) && lengths[table[word] / 16] == table[word] % 16
    ensures forall s: nat :: Matches(lengths, s, word) ==> table[word] % 16 != 0 && table[word] / 16 == s
  {
    hide Kraft, CodeOf, LowBits;
    if table[word] != 0 {
      var s: nat :| s < |lengths| && Matches(lengths, s, word);
      assert table[word] == 16 * s + lengths[s];
    }
    forall s: nat | Matches(lengths, s, word)
      ensures table[word] % 16 != 0 && table[word] / 16 == s
    {
      assert table[word] == 16 * s + lengths[s];
    }
  }
}
