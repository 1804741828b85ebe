/** The deflate format (RFC 1951), read off the bits one code at a time with the whole output in hand. */
module Deflate {
  import opened Feed
  import opened Bits
  import opened Huffman

  datatype Taken = Taken(value: nat, rest: seq<Bit>)

  /** What was put out, and the bits that are left, or the error that ended it. */
  datatype Decoded = Decoded(out: seq<nat>, end: Result<seq<Bit>>)

  /** The length and distance alphabets of section 3.2.5 of RFC 1951. */
  const BASE: seq<nat> := [3, 4, 5, 6, 7, 8, 9, 10, 11, 13, 15, 17, 19, 23, 27, 31, 35, 43, 51, 59,
                           67, 83, 99, 115, 131, 163, 195, 227, 258]
  const EXTRA: seq<nat> := [0, 0, 0, 0, 0, 0, 0, 0, 1, 1, 1, 1, 2, 2, 2, 2, 3, 3, 3, 3, 4, 4, 4, 4, 5, 5, 5, 5, 0]
  const OFFSET: seq<nat> := [1, 2, 3, 4, 5, 7, 9, 13, 17, 25, 33, 49, 65, 97, 129, 193, 257, 385, 513,
                             769, 1025, 1537, 2049, 3073, 4097, 6145, 8193, 12289, 16385, 24577]
  const SPREAD: seq<nat> := [0, 0, 0, 0, 1, 1, 2, 2, 3, 3, 4, 4, 5, 5, 6, 6, 7, 7, 8, 8, 9, 9, 10, 10,
                             11, 11, 12, 12, 13, 13]
  /** The order of the code length alphabet's own lengths (section 3.2.7). */
  const ORDER: seq<nat> := [16, 17, 18, 0, 8, 7, 9, 6, 10, 5, 11, 4, 12, 3, 13, 2, 14, 1, 15]

  function Repeat(value: nat, n: nat): (s: seq<nat>)
    ensures |s| == n && forall i :: 0 <= i < n ==> s[i] == value
  {
    seq(n, _ => value)
  }

  /** The fixed codes of section 3.2.6. */
  const FIXED_LITERAL: seq<nat> := Repeat(8, 144) + Repeat(9, 112) + Repeat(7, 24) + Repeat(8, 8)
  const FIXED_DISTANCE: seq<nat> := Repeat(5, 30)

  /** A number of `n` bits, least significant first. */
  function Take(bits: seq<Bit>, n: nat): (r: Result<Taken>)
    ensures r.Ok? <==> n <= |bits|
    ensures r.Ok? ==> r.value.value < Pow2(n) && |r.value.rest| == |bits| - n
  {
    if |bits| < n then Err(21)
    else
      LowBitsOfValue(bits[..n]);
      Ok(Taken(Value(bits[..n]), bits[n..]))
  }

  ghost predicate Begins(lengths: seq<nat>, s: nat, bits: seq<Bit>) {
    Assigned(lengths, s) && CodeOf(lengths, s) <= bits
  }

  /** The symbol whose code comes next. */
  ghost function Symbol(lengths: seq<nat>, bits: seq<Bit>): (r: Result<Taken>)
    ensures r.Ok? ==> Begins(lengths, r.value.value, bits) && r.value.rest == bits[lengths[r.value.value]..]
    ensures r.Ok? ==> |r.value.rest| < |bits|
    ensures r.Err? ==> r.code == 21 && forall s: nat :: !Begins(lengths, s, bits)
  {
    if s: nat :| Begins(lengths, s, bits) then Ok(Taken(s, bits[lengths[s]..])) else Err(21)
  }

  lemma SymbolIs(lengths: seq<nat>, bits: seq<Bit>, s: nat)
    requires Lengths(lengths) && Kraft(lengths) <= SLOTS && Begins(lengths, s, bits)
    ensures Symbol(lengths, bits) == Ok(Taken(s, bits[lengths[s]..]))
  {
    var t := Symbol(lengths, bits).value.value;
    if lengths[s] <= lengths[t] {
      PrefixesNest(CodeOf(lengths, s), CodeOf(lengths, t), bits);
      PrefixFree(lengths, s, t);
    } else {
      PrefixesNest(CodeOf(lengths, t), CodeOf(lengths, s), bits);
      PrefixFree(lengths, t, s);
    }
  }

  /** Copies `n` bytes from `back` before the end; the source may run into what it has just written. */
  function Copy(out: seq<nat>, back: nat, n: nat): (more: seq<nat>)
    requires 0 < back <= |out|
    ensures |more| == |out| + n && out <= more
    decreases n
  {
    if n == 0 then out else Copy(out + [out[|out| - back]], back, n - 1)
  }

  function Bytes(n: nat, bits: seq<Bit>, out: seq<nat>): Decoded
    decreases n
  {
    if n == 0 then Decoded(out, Ok(bits))
    else
      match Take(bits, 8)
      case Err(e) => Decoded(out, Err(e))
      case Ok(b) => Bytes(n - 1, b.rest, out + [b.value])
  }

  /** A stored block (section 3.2.4): from the next byte boundary, a length, its complement and the bytes. */
  function Stored(bits: seq<Bit>, out: seq<nat>): Decoded {
    match StoredLength(bits)
    case Err(e) => Decoded(out, Err(e))
    case Ok(length) => Bytes(length.value, length.rest, out)
  }

  function StoredLength(bits: seq<Bit>): Result<Taken> {
    var length :- Take(bits[|bits| % 8..], 16);
    var complement :- Take(length.rest, 16);
    if length.value + complement.value != 0xFFFF then Err(21) else Ok(Taken(length.value, complement.rest))
  }

  /** A back-reference: a length and a distance. */
  datatype Reference = Reference(length: nat, back: nat, rest: seq<Bit>)

  lemma Alphabets()
    ensures |BASE| == |EXTRA| == 29 && |OFFSET| == |SPREAD| == 30
  {
  }

  ghost function Match(symbol: nat, distance: seq<nat>, bits: seq<Bit>): (r: Result<Reference>)
    requires 257 <= symbol <= 285
    ensures r.Ok? ==> |r.value.rest| <= |bits| && 1 <= r.value.back <= 32768
  {
    var extra :- Take(bits, EXTRA[symbol - 257]);
    var code :- Symbol(distance, extra.rest);
    if code.value > 29 then Err(21)
    else
      var spread :- Take(code.rest, SPREAD[code.value]);
      Distances(code.value);
      Ok(Reference(BASE[symbol - 257] + extra.value, OFFSET[code.value] + spread.value, spread.rest))
  }

  /** The distance ranges follow one another up to 32768. */
  lemma Distances(i: nat)
    requires i < 30
    ensures 1 <= OFFSET[i] && OFFSET[i] + Pow2(SPREAD[i]) == if i < 29 then OFFSET[i + 1] else 32769
  {
    Powers();
    hide Pow2;
  }

  /** Four distances, then two for each further number of extra bits. */
  lemma DistanceBits(i: nat)
    requires i < 30
    ensures SPREAD[i] == if i < 4 then 0 else i / 2 - 1
  {
  }

  /** The length ranges follow one another from 3 up to 258, the last one apart: it is 258 alone, without extra bits. */
  lemma LengthRanges(i: nat)
    requires i < 28
    ensures BASE[0] == 3 && BASE[i] + Pow2(EXTRA[i]) == if i < 27 then BASE[i + 1] else 259
    ensures EXTRA[i] == if i < 8 then 0 else i / 4 - 1
    ensures BASE[28] == 258 && EXTRA[28] == 0
  {
    Powers();
    hide Pow2;
  }

  /** First the three repetitions and the length 0, then the lengths by their distance from 8, from 8 on. */
  lemma OrderIs(i: nat)
    requires i < 19
    ensures |ORDER| == 19 && ORDER[..4] == [16, 17, 18, 0]
    ensures i >= 4 ==> ORDER[i] == if i % 2 == 0 then 8 + (i - 4) / 2 else 8 - (i - 3) / 2
    ensures i in ORDER
  {
    assert ORDER[3] == 0 && ORDER[17] == 1 && ORDER[15] == 2 && ORDER[13] == 3 && ORDER[11] == 4 && ORDER[9] == 5;
    assert ORDER[7] == 6 && ORDER[5] == 7 && ORDER[4] == 8 && ORDER[6] == 9 && ORDER[8] == 10 && ORDER[10] == 11;
    assert ORDER[12] == 12 && ORDER[14] == 13 && ORDER[16] == 14 && ORDER[18] == 15;
    assert ORDER[0] == 16 && ORDER[1] == 17 && ORDER[2] == 18;
  }

  /** The fixed literal codes have 8, 9, 7 and 8 bits, those of the distances 5. */
  lemma FixedLengths(s: nat)
    ensures |FIXED_LITERAL| == 288 && |FIXED_DISTANCE| == 30
    ensures s < 288 ==> FIXED_LITERAL[s] == if s < 144 then 8 else if s < 256 then 9 else if s < 280 then 7 else 8
    ensures s < 30 ==> FIXED_DISTANCE[s] == 5
  {
  }

  lemma Powers()
    ensures Pow2(0) == 1 && Pow2(1) == 2 && Pow2(2) == 4 && Pow2(3) == 8 && Pow2(4) == 16 && Pow2(5) == 32
            && Pow2(6) == 64
    ensures Pow2(7) == 128 && Pow2(8) == 256 && Pow2(9) == 512 && Pow2(10) == 1024 && Pow2(11) == 2048
            && Pow2(12) == 4096
    ensures Pow2(13) == 8192
  {
    assert Pow2(2) == 2 * Pow2(1) && Pow2(3) == 2 * Pow2(2) && Pow2(4) == 2 * Pow2(3) && Pow2(5) == 2 * Pow2(4);
    assert Pow2(6) == 2 * Pow2(5) && Pow2(7) == 2 * Pow2(6) && Pow2(8) == 2 * Pow2(7) && Pow2(9) == 2 * Pow2(8);
    assert Pow2(10) == 2 * Pow2(9) && Pow2(11) == 2 * Pow2(10) && Pow2(12) == 2 * Pow2(11) && Pow2(13) == 2 * Pow2(12);
  }

  /** A compressed block's data: literals and back-references into everything put out so far (section 3.2.3). */
  ghost function Codes(literal: seq<nat>, distance: seq<nat>, bits: seq<Bit>, out: seq<nat>): Decoded
    decreases |bits|
  {
    match Symbol(literal, bits)
    case Err(e) => Decoded(out, Err(e))
    case Ok(symbol) =>
      if symbol.value < 256 then Codes(literal, distance, symbol.rest, out + [symbol.value])
      else if symbol.value == 256 then Decoded(out, Ok(symbol.rest))
      else if symbol.value > 285 then Decoded(out, Err(21))
      else
        match Match(symbol.value, distance, symbol.rest)
        case Err(e) => Decoded(out, Err(e))
        case Ok(m) =>
          if m.back > |out| then Decoded(out, Err(21))
          else Codes(literal, distance, m.rest, Copy(out, m.back, m.length))
  }

  datatype Lists = Lists(lengths: seq<nat>, rest: seq<Bit>)

  /** The code length alphabet's own lengths, three bits each. */
  function Header(n: nat, index: nat, lengths: seq<nat>, bits: seq<Bit>): (r: Result<Lists>)
    requires n <= 19 && |lengths| == 19 && Huffman.Lengths(lengths)
    ensures r.Ok? ==> |r.value.lengths| == 19 && Huffman.Lengths(r.value.lengths) && |r.value.rest| <= |bits|
    decreases n - index
  {
    if index >= n then Ok(Lists(lengths, bits))
    else
      var t :- Take(bits, 3);
      Powers();
      Header(n, index + 1, lengths[ORDER[index] := t.value], t.rest)
  }

  /** The run lengths of section 3.2.7: copies of the previous length, or zeros. */
  ghost function RunLengths(alphabet: seq<nat>, total: nat, lengths: seq<nat>, bits: seq<Bit>): (r: Result<Lists>)
    requires |alphabet| == 19 && |lengths| <= total && Huffman.Lengths(lengths)
    ensures r.Ok? ==> |r.value.lengths| == total && Huffman.Lengths(r.value.lengths) && |r.value.rest| <= |bits|
    decreases |bits|
  {
    if |lengths| == total then Ok(Lists(lengths, bits))
    else
      var symbol :- Symbol(alphabet, bits);
      if symbol.value < 16 then RunLengths(alphabet, total, lengths + [symbol.value], symbol.rest)
      else if symbol.value == 16 && lengths == [] then Err(21)
      else
        var value := if symbol.value == 16 then lengths[|lengths| - 1] else 0;
        var extra :- Take(symbol.rest, if symbol.value == 16 then 2 else if symbol.value == 17 then 3 else 7);
        var repeat := (if symbol.value == 18 then 11 else 3) + extra.value;
        if |lengths| + repeat > total then Err(21)
        else RunLengths(alphabet, total, lengths + Repeat(value, repeat), extra.rest)
  }

  datatype Codebook = Codebook(literal: seq<nat>, distance: seq<nat>, rest: seq<Bit>)

  datatype Counts = Counts(literals: nat, distances: nat, header: nat, rest: seq<Bit>)

  function CountsOf(bits: seq<Bit>): (r: Result<Counts>)
    ensures r.Ok? ==> 257 <= r.value.literals && 1 <= r.value.distances && r.value.header <= 19
                      && |r.value.rest| <= |bits|
  {
    var literals :- Take(bits, 5);
    var distances :- Take(literals.rest, 5);
    var header :- Take(distances.rest, 4);
    Powers();
    if literals.value + 257 > 286 || distances.value + 1 > 30 then Err(21)
    else Ok(Counts(literals.value + 257, distances.value + 1, header.value + 4, header.rest))
  }

  /** A dynamic block's codes (section 3.2.7). */
  ghost function Dynamic(bits: seq<Bit>): (r: Result<Codebook>)
    ensures r.Ok? ==> |r.value.rest| <= |bits|
  {
    var counts :- CountsOf(bits);
    var alphabet :- Header(counts.header, 0, Repeat(0, 19), counts.rest);
    if Kraft(alphabet.lengths) > SLOTS then Err(21)
    else
      var all :- RunLengths(alphabet.lengths, counts.literals + counts.distances, [], alphabet.rest);
      var literal, distance := all.lengths[..counts.literals], all.lengths[counts.literals..];
      if literal[256] == 0 || Kraft(literal) > SLOTS || Kraft(distance) > SLOTS then Err(21)
      else Ok(Codebook(literal, distance, all.rest))
  }

  ghost function Block(kind: nat, bits: seq<Bit>, out: seq<nat>): Decoded {
    if kind == 0 then Stored(bits, out)
    else if kind == 1 then Codes(FIXED_LITERAL, FIXED_DISTANCE, bits, out)
    else if kind == 2 then
      match Dynamic(bits)
      case Err(e) => Decoded(out, Err(e))
      case Ok(book) => Codes(book.literal, book.distance, book.rest, out)
    else Decoded(out, Err(21))
  }

  lemma Shorter(kind: nat, bits: seq<Bit>, out: seq<nat>)
    ensures Block(kind, bits, out).end.Ok? ==> |Block(kind, bits, out).end.value| <= |bits|
  {
    if kind == 0 {
      if StoredLength(bits).Ok? {
        BytesShorter(StoredLength(bits).value.value, StoredLength(bits).value.rest, out);
      }
    } else if kind == 1 {
      CodesShorter(FIXED_LITERAL, FIXED_DISTANCE, bits, out);
    } else if kind == 2 && Dynamic(bits).Ok? {
      var book := Dynamic(bits).value;
      CodesShorter(book.literal, book.distance, book.rest, out);
    }
  }

  lemma {:induction false} BytesShorter(n: nat, bits: seq<Bit>, out: seq<nat>)
    ensures Bytes(n, bits, out).end.Ok? ==> |Bytes(n, bits, out).end.value| <= |bits|
    decreases n
  {
    if n > 0 && Take(bits, 8).Ok? {
      var b := Take(bits, 8).value;
      BytesShorter(n - 1, b.rest, out + [b.value]);
    }
  }

  lemma {:induction false} CodesShorter(literal: seq<nat>, distance: seq<nat>, bits: seq<Bit>, out: seq<nat>)
    ensures Codes(literal, distance, bits, out).end.Ok? ==> |Codes(literal, distance, bits, out).end.value| <= |bits|
    decreases |bits|
  {
    if Symbol(literal, bits).Ok? {
      var symbol := Symbol(literal, bits).value;
      if symbol.value < 256 {
        CodesShorter(literal, distance, symbol.rest, out + [symbol.value]);
      } else if 256 < symbol.value <= 285 && Match(symbol.value, distance, symbol.rest).Ok? {
        var m := Match(symbol.value, distance, symbol.rest).value;
        if m.back <= |out| {
          CodesShorter(literal, distance, m.rest, Copy(out, m.back, m.length));
        }
      }
    }
  }

  /** A block's header: whether it is the last one, and its kind. */
  function BlockHeader(bits: seq<Bit>): (r: Result<(bool, Taken)>)
    ensures r.Ok? ==> |r.value.1.rest| < |bits|
  {
    var last :- Take(bits, 1);
    var kind :- Take(last.rest, 2);
    Ok((last.value != 0, kind))
  }

  /** A stream of blocks, up to and including the one marked last (section 3.2.3). */
  ghost function Blocks(bits: seq<Bit>, out: seq<nat>): Decoded
    decreases |bits|
  {
    match BlockHeader(bits)
    case Err(e) => Decoded(out, Err(e))
    case Ok(header) =>
      var d := Block(header.1.value, header.1.rest, out);
      Shorter(header.1.value, header.1.rest, out);
      if header.0 || d.end.Err? then d else Blocks(d.end.value, d.out)
  }

  /** The stream's whole output, up to where it is refused, if it is; an accepted one ends in the last byte. */
  ghost function Finished(bits: seq<Bit>): Decoded {
    var d := Blocks(bits, []);
    if d.end.Ok? && |d.end.value| >= 8 then Decoded(d.out, Err(21)) else d
  }
}
