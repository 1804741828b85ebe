/** CRC-32 (section 8 of RFC 1952): the byte-wise table form divides the message bit by bit. */
module Crc {
  const POLYNOMIAL: bv32 := 0xEDB88320

  function Xor(a: bv32, b: bv32): bv32 { a ^ b }
  function Not(v: bv32): bv32 { !v }
  function Halve(v: bv32): bv32 { v >> 1 }
  function Lowest(v: bv32): bool { v & 1 == 1 }
  function Unit(bit: bool): bv32 { if bit then 1 else 0 }
  function Word(byte: bv8): bv32 { byte as bv32 }

  /** One step of the reflected division: the lowest bit leaves, and subtracts the polynomial when it is set. */
  function Divide(v: bv32): bv32 { if Lowest(v) then Xor(POLYNOMIAL, Halve(v)) else Halve(v) }

  /** The coefficient of x^exponent below x^32 in a reflected register. */
  function Term(exponent: bv32): bv32
    requires exponent < 32
  {
    1 << (31 - exponent)
  }

  /** The polynomial of section 8.1.1.6.2 of ITU-T V.42 without its leading x^32, the highest exponent last. */
  lemma PolynomialIs()
    ensures POLYNOMIAL == Term(0) | Term(1) | Term(2) | Term(4) | Term(5) | Term(7) | Term(8) | Term(10) | Term(11)
                          | Term(12) | Term(16) | Term(22) | Term(23) | Term(26)
  {
  }

  /** A step subtracts the polynomial, x^32 included, when the register has that term, and what is left is the double of
      the next register: the remainder is multiplied by x, modulo the polynomial. */
  lemma DivideIsModular(v: bv32)
    ensures (Divide(v) as bv64) << 1
         == (v as bv64) ^ (if v & 1 == 1 then ((POLYNOMIAL as bv64) << 1) | 1 else 0)
  {
  }

  /** The register after the message's bits. */
  function Remainder(register: bv32, bits: seq<bool>): bv32 {
    if bits == [] then register
    else Divide(Xor(Remainder(register, bits[..|bits| - 1]), Unit(bits[|bits| - 1])))
  }

  function Half(v: bv32, n: nat): bv32 { if n == 0 then v else Halve(Half(v, n - 1)) }

  /** The low `n` bits, lowest first. */
  function BitsOf(v: bv32, n: nat): (bits: seq<bool>)
    ensures |bits| == n
  {
    if n == 0 then [] else BitsOf(v, n - 1) + [Lowest(Half(v, n - 1))]
  }

  function Message(bytes: seq<bv8>): seq<bool> {
    if bytes == [] then [] else Message(bytes[..|bytes| - 1]) + BitsOf(Word(bytes[|bytes| - 1]), 8)
  }

  /** The CRC of a message after a running CRC: complemented on the way in and out. */
  function Checksum(crc: bv32, bytes: seq<bv8>): bv32 { Not(Remainder(Not(crc), Message(bytes))) }

  lemma {:induction false} RemainderConcat(register: bv32, a: seq<bool>, b: seq<bool>)
    ensures Remainder(register, a + b) == Remainder(Remainder(register, a), b)
  {
    hide Divide, Xor, Unit;
    if b == [] {
      assert a + b == a;
    } else {
      assert (a + b)[..|a + b| - 1] == a + b[..|b| - 1];
      RemainderConcat(register, a, b[..|b| - 1]);
    }
  }

  lemma {:induction false} MessageConcat(a: seq<bv8>, b: seq<bv8>)
    ensures Message(a + b) == Message(a) + Message(b)
  {
    hide BitsOf, Word;
    if b == [] {
      assert a + b == a;
    } else {
      assert (a + b)[..|a + b| - 1] == a + b[..|b| - 1];
      MessageConcat(a, b[..|b| - 1]);
    }
  }

  /** Continuing from the CRC of `a` over `b` gives the CRC of `a` followed by `b`. */
  lemma Continues(crc: bv32, a: seq<bv8>, b: seq<bv8>)
    ensures Checksum(Checksum(crc, a), b) == Checksum(crc, a + b)
  {
    hide Remainder, Message, Not;
    MessageConcat(a, b);
    RemainderConcat(Not(crc), Message(a), Message(b));
    NotNot(Remainder(Not(crc), Message(a)));
  }

  lemma NotNot(v: bv32)
    ensures Not(Not(v)) == v
  {
  }

  // ---------- Eight steps at once ----------

  function Divided(v: bv32, n: nat): bv32 { if n == 0 then v else Divide(Divided(v, n - 1)) }

  lemma DivideSplits(x: bv32, y: bv32)
    ensures Divide(Xor(x, y)) == Xor(Divide(Xor(x, Unit(Lowest(y)))), Halve(y))
  {
    HalveSplits(x, y);
    XorAssociates(POLYNOMIAL, Halve(Xor(x, Unit(Lowest(y)))), Halve(y));
    hide Xor, Halve, Lowest, Unit;
  }

  lemma HalveSplits(x: bv32, y: bv32)
    ensures Lowest(Xor(x, y)) == Lowest(Xor(x, Unit(Lowest(y))))
    ensures Halve(Xor(x, y)) == Xor(Halve(Xor(x, Unit(Lowest(y)))), Halve(y))
  {
    assert (x ^ y) >> 1 == (x >> 1) ^ (y >> 1);
    assert (x ^ 1) >> 1 == x >> 1 && (x ^ 0) >> 1 == x >> 1;
  }

  lemma XorAssociates(a: bv32, b: bv32, c: bv32)
    ensures Xor(a, Xor(b, c)) == Xor(Xor(a, b), c)
  {
  }

  /** Feeding the bits of a word one by one equals adding the whole word first. */
  lemma {:induction false} WordAtOnce(register: bv32, word: bv32, n: nat)
    ensures Divided(Xor(register, word), n) == Xor(Remainder(register, BitsOf(word, n)), Half(word, n))
  {
    hide Xor, Divide, Halve, Lowest, Unit;
    if n > 0 {
      WordAtOnce(register, word, n - 1);
      assert BitsOf(word, n)[..n - 1] == BitsOf(word, n - 1);
      DivideSplits(Remainder(register, BitsOf(word, n - 1)), Half(word, n - 1));
    }
  }

  lemma EightHalves(v: bv32)
    ensures Half(v, 8) == Halve(Halve(Halve(Halve(Halve(Halve(Halve(Halve(v))))))))
  {
    hide Halve;
    assert Half(v, 1) == Halve(v) && Half(v, 2) == Halve(Half(v, 1)) && Half(v, 3) == Halve(Half(v, 2));
    assert Half(v, 4) == Halve(Half(v, 3)) && Half(v, 5) == Halve(Half(v, 4)) && Half(v, 6) == Halve(Half(v, 5));
    assert Half(v, 7) == Halve(Half(v, 6)) && Half(v, 8) == Halve(Half(v, 7));
  }

  lemma EightIsByte(v: bv32)
    ensures Half(v, 8) == Upper(v)
  {
    EightHalves(v);
    hide Half;
    assert v >> 1 >> 1 >> 1 >> 1 >> 1 >> 1 >> 1 >> 1 == v >> 8;
  }

  /** Bits that do not reach the low end in `n` steps just move down. */
  lemma {:induction false} HighBitsMove(low: bv32, high: bv32, n: nat)
    requires forall i: nat :: i < n ==> !Lowest(Half(high, i))
    ensures Divided(Xor(low, high), n) == Xor(Divided(low, n), Half(high, n))
  {
    hide Xor, Divide, Halve, Lowest, Unit;
    if n > 0 {
      HighBitsMove(low, high, n - 1);
      DivideSplits(Divided(low, n - 1), Half(high, n - 1));
      NoBit(Divided(low, n - 1));
    }
  }

  lemma NoBit(v: bv32)
    ensures Xor(v, Unit(false)) == v
  {
  }

  function LowByte(v: bv32): bv32 { v & 0xFF }
  function Upper(v: bv32): bv32 { v >> 8 }
  function HighBytes(v: bv32): bv32 { v & 0xFFFF_FF00 }

  lemma ByteParts(v: bv32)
    ensures v == Xor(LowByte(v), HighBytes(v)) && Upper(HighBytes(v)) == Upper(v)
  {
  }

  lemma HighStaysHigh(v: bv32, i: nat)
    requires i < 8
    ensures !Lowest(Half(HighBytes(v), i))
  {
    HighMoves(HighBytes(v), i);
  }

  lemma {:induction false} HighMoves(h: bv32, i: nat)
    requires i < 8 && h & 0xFF == 0
    ensures Half(h, i) & 1 == 0 && Half(h, i) & (0xFF >> i as bv4) == 0
  {
    if i > 0 {
      HighMoves(h, i - 1);
    }
  }

  /** One table lookup does eight steps. */
  lemma TableStep(v: bv32)
    ensures Divided(v, 8) == Xor(Divided(LowByte(v), 8), Upper(v))
  {
    hide Xor, Divided, LowByte, HighBytes, Half, Lowest, Upper;
    ByteParts(v);
    forall i: nat | i < 8
      ensures !Lowest(Half(HighBytes(v), i))
    {
      HighStaysHigh(v, i);
    }
    HighBitsMove(LowByte(v), HighBytes(v), 8);
    EightIsByte(HighBytes(v));
  }

  // ---------- The table form ----------

  ghost predicate IsTable(table: seq<bv32>) {
    |table| == 256 && forall index :: 0 <= index < 256 ==> table[index] == Divided(index as bv32, 8)
  }

  method BuildTable() returns (table: array<bv32>)
    ensures fresh(table) && IsTable(table[..])
  {
    hide Divide;
    table := new bv32[256](_ => 0);
    var index := 0;
    while index < 256
      invariant index <= 256 && forall k :: 0 <= k < index ==> table[k] == Divided(k as bv32, 8)
    {
      var value, bit := index as bv32, 0;
      while bit < 8
        invariant bit <= 8 && value == Divided(index as bv32, bit)
      {
        value := Divide(value);
        bit := bit + 1;
      }
      table[index] := value;
      index := index + 1;
    }
  }

  /** The checksum, eight bits a step; continuing from a running value is the same message. */
  method Crc32(crc: bv32, bytes: seq<bv8>) returns (r: bv32)
    ensures r == Checksum(crc, bytes)
  {
    hide Divide, Remainder, Message, Not, Divided, Xor, Word;
    var table := BuildTable();
    r := Not(crc);
    var index := 0;
    NoMessage(r);
    assert bytes[..0] == [];
    while index < |bytes|
      invariant index <= |bytes| && IsTable(table[..]) && r == Remainder(Not(crc), Message(bytes[..index]))
    {
      var slot := LowByte(Xor(r, Word(bytes[index])));
      ByteStep(Not(crc), bytes, index, r);
      SlotInTable(Xor(r, Word(bytes[index])));
      r := Xor(table[slot as int], Upper(r));
      index := index + 1;
    }
    assert bytes[..index] == bytes;
    r := Not(r);
  }

  lemma NoMessage(register: bv32)
    ensures Remainder(register, Message([])) == register
  {
  }

  lemma SlotInTable(v: bv32)
    ensures LowByte(v) as int < 256 && (LowByte(v) as int) as bv32 == LowByte(v)
  {
  }

  lemma ByteStep(register: bv32, bytes: seq<bv8>, index: nat, r: bv32)
    requires index < |bytes| && r == Remainder(register, Message(bytes[..index]))
    ensures Remainder(register, Message(bytes[..index + 1]))
         == Xor(Divided(LowByte(Xor(r, Word(bytes[index]))), 8), Upper(r))
  {
    hide Divide, Xor, Word, Half, BitsOf, LowByte, Upper, Divided, Remainder, Message;
    var word := Word(bytes[index]);
    MessageStep(bytes, index);
    RemainderConcat(register, Message(bytes[..index]), BitsOf(word, 8));
    WordAtOnce(r, word, 8);
    TableStep(Xor(r, word));
    ByteGone(r, bytes[index], Remainder(r, BitsOf(word, 8)));
  }

  lemma MessageStep(bytes: seq<bv8>, index: nat)
    requires index < |bytes|
    ensures Message(bytes[..index + 1]) == Message(bytes[..index]) + BitsOf(Word(bytes[index]), 8)
  {
    hide BitsOf, Word;
    assert bytes[..index + 1][..index] == bytes[..index];
  }

  lemma ByteGone(r: bv32, byte: bv8, v: bv32)
    ensures Xor(v, Half(Word(byte), 8)) == v && Upper(Xor(r, Word(byte))) == Upper(r)
  {
    EightIsByte(Word(byte));
    hide Half;
    assert Word(byte) >> 8 == 0;
  }
}
