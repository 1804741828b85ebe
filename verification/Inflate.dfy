/** The streaming inflater: a byte source read in pieces, a bit register, lookup tables and a 32 KiB window. */
module Inflate {
  import opened Arithmetic
  import opened Feed
  import opened Bits
  import opened Huffman
  import opened Deflate

  const FLUSH_AT := 0x10_0000
  const WINDOW := 32768

  predicate AreBytes(s: seq<nat>) { forall i :: 0 <= i < |s| ==> s[i] < 256 }

  /** What a source still delivers: its pieces up to the first empty one, which is its end. */
  function Delivered(pieces: seq<seq<nat>>): seq<nat> {
    if pieces == [] || pieces[0] == [] then [] else pieces[0] + Delivered(pieces[1..])
  }

  lemma {:induction false} ShiftRightFits(v: nat, m: nat, n: nat)
    requires m <= n && v < Pow2(n)
    ensures ShiftRight(v, m) < Pow2(n - m)
  {
    if m > 0 {
      ShiftRightFits(v / 2, m - 1, n - 1);
    }
  }

  lemma {:induction false} ShiftLeftFits(v: nat, n: nat, high: nat, m: nat)
    requires v < Pow2(n) && high < Pow2(m)
    ensures v + ShiftLeft(high, n) < Pow2(n + m)
  {
    if n > 0 {
      ShiftLeftFits(v / 2, n - 1, high, m);
    }
  }

  class Inflater {
    var pieces: seq<seq<nat>>
    var input: seq<nat>
    var position: nat
    var exhausted: bool
    var bits: nat
    var count: nat
    var padding: nat      // zero bytes appended beyond the end of the input
    var window: seq<nat>  // output not yet handed on, plus the last 32 KiB for back-references
    var sink: seq<nat>    // output handed on

    /** The input side: real bits are counted, and padding begins only beyond the end. */
    ghost predicate Ready()
      reads `pieces, `input, `position, `exhausted, `bits, `count, `padding
    {
      && position <= |input| && AreBytes(input) && (forall i :: 0 <= i < |pieces| ==> AreBytes(pieces[i]))
      && 8 * padding <= count && bits < Pow2(count - 8 * padding)
      && (exhausted ==> position == |input|) && (padding > 0 ==> exhausted)
    }

    function Unread(): seq<nat>
      reads `pieces, `input, `position, `exhausted, `bits, `count, `padding
      requires Ready()
    {
      input[position..] + if exhausted then [] else Delivered(pieces)
    }

    /** The input bits not yet consumed: the real bits of the register, then the unread bytes. */
    function Rest(): seq<Bit>
      reads `pieces, `input, `position, `exhausted, `bits, `count, `padding
      requires Ready()
    {
      LowBits(bits, count - 8 * padding) + BytesToBits(Unread())
    }

    function Output(): seq<nat>
      reads `window, `sink
    {
      sink + window
    }

    ghost predicate Valid()
      reads this
    {
      Ready() && (sink == [] || WINDOW <= |window|)
    }

    constructor (pieces: seq<seq<nat>>)
      requires forall i :: 0 <= i < |pieces| ==> AreBytes(pieces[i])
      ensures Valid() && Rest() == BytesToBits(Delivered(pieces)) && Output() == []
    {
      this.pieces, input, position, exhausted := pieces, [], 0, false;
      bits, count, padding, window, sink := 0, 0, 0, [], [];
      new;
      assert Unread() == Delivered(pieces);
      assert Rest() == BytesToBits(Unread());
    }

    /** The next input byte, asking the source for another piece when this one is used up. */
    method Byte() returns (value: Option<nat>)
      requires Valid()
      modifies this`pieces, this`input, this`position, this`exhausted
      ensures Valid() && (value == None ==> exhausted)
      ensures value.Some? ==> value.value < 256
      ensures value == if old(Unread()) == [] then None else Some(old(Unread())[0])
      ensures Unread() == if old(Unread()) == [] then [] else old(Unread())[1..]
      ensures old(exhausted) ==> exhausted
    {
      hide LowBits, Pow2, ShiftRight, ShiftLeft;
      if position == |input| {
        assert input[position..] == [];
        if exhausted {
          return None;
        }
        if pieces == [] || pieces[0] == [] {
          exhausted := true;
          return None;
        }
        input, position, pieces := pieces[0], 0, pieces[1..];
        assert input[0..] == input;
      }
      FirstOf(input, position, if exhausted then [] else Delivered(pieces));
      value := Some(input[position]);
      position := position + 1;
    }

    /** Appends one byte to the register; beyond the input it is a zero byte that is counted apart. */
    method Load()
      requires Valid()
      modifies this`pieces, this`input, this`position, this`exhausted, this`bits, this`count, this`padding
      ensures Valid() && Rest() == old(Rest()) && count == old(count) + 8
    {
      hide AreBytes, Pow2, LowBits, BytesToBits, Delivered, ShiftLeft;
      ghost var unread := Unread();
      var value := Byte();
      if value.None? {
        padding, count := padding + 1, count + 8;
      } else {
        ByteMoves(bits, count, value.value, unread);
        bits, count := bits + ShiftLeft(value.value, count), count + 8;
      }
    }

    method Need(wanted: nat)
      requires Valid()
      modifies this`pieces, this`input, this`position, this`exhausted, this`bits, this`count, this`padding
      ensures Valid() && Rest() == old(Rest()) && count >= wanted
      ensures count <= old(count) || count <= wanted + 7
    {
      hide AreBytes, Pow2, LowBits, BytesToBits, Delivered;
      while count < wanted
        invariant Valid() && Rest() == old(Rest())
        invariant count == old(count) || count <= wanted + 7
      {
        Load();
      }
    }

    /** The register holds the next real bits. */
    lemma Register(n: nat)
      requires Valid() && n <= count && n <= |Rest()|
      ensures Rest()[..n] == LowBits(bits, n)
      ensures padding > 0 ==> |Rest()| == count - 8 * padding
      ensures n <= count - 8 * padding
    {
      hide LowBits, Pow2, Delivered;
      LowBitsPrefix(bits, n, count - 8 * padding);
      assert padding > 0 ==> Unread() == [];
    }

    /** Removes bits from the register; padding bits were never there. */
    method Drop(used: nat) returns (r: Result<()>)
      requires Valid() && used <= count
      modifies this`bits, this`count
      ensures if used <= old(|Rest()|)
              then r == Ok(()) && Valid() && Rest() == old(Rest())[used..] && count == old(count) - used
              else r == Err(21)
    {
      hide LowBits, Pow2, BytesToBits, Delivered, ShiftRight;
      if used <= |Rest()| {
        Register(used);
        LowBitsPrefix(bits, used, count - 8 * padding);
        ShiftRightFits(bits, used, count - 8 * padding);
      }
      bits, count := ShiftRight(bits, used), count - used;
      if count < 8 * padding {
        return Err(21);
      }
      return Ok(());
    }

    method TakeBits(wanted: nat) returns (r: Result<nat>)
      requires Valid()
      modifies this`pieces, this`input, this`position, this`exhausted, this`bits, this`count, this`padding
      ensures match Take(old(Rest()), wanted)
              case Ok(t) => r == Ok(t.value) && Valid() && Rest() == t.rest
              case Err(_) => r == Err(21)
    {
      hide LowBits, Pow2, BytesToBits, Delivered, Rest, Ready;
      if wanted == 0 {
        assert Rest()[..0] == [] && Rest()[0..] == Rest();
        return Ok(0);
      }
      Need(wanted);
      var value := bits % Pow2(wanted);
      if wanted <= |Rest()| {
        Register(wanted);
        LowBitsModulo(bits, wanted);
      }
      var _ :- Drop(wanted);
      return Ok(value);
    }

    /** Looks the next 15 bits up, zeros standing in for bits beyond the input. */
    method Decode(table: seq<nat>, ghost lengths: seq<nat>) returns (r: Result<nat>)
      requires Valid() && Huffman.Lengths(lengths) && Kraft(lengths) <= SLOTS && IsTable(table, lengths)
      modifies this`pieces, this`input, this`position, this`exhausted, this`bits, this`count, this`padding
      ensures match Symbol(lengths, old(Rest()))
              case Ok(t) => r == Ok(t.value) && Valid() && Rest() == t.rest
              case Err(_) => r == Err(21)
    {
      hide LowBits, Pow2, BytesToBits, Delivered, Rest, Ready, Valid, IsTable, Kraft;
      Need(15);
      var word := bits % SLOTS;
      assert |table| == SLOTS by {
        TableSize(table, lengths);
      }
      var entry := table[word];
      NextSymbol(table, lengths);
      if entry % 16 == 0 {
        return Err(21);
      }
      var _ :- Drop(entry % 16);
      return Ok(entry / 16);
    }

    /** The looked-up entry is the next symbol's, unless its code runs beyond the input. */
    lemma NextSymbol(table: seq<nat>, lengths: seq<nat>)
      requires Valid() && count >= 15 && Huffman.Lengths(lengths) && Kraft(lengths) <= SLOTS && IsTable(table, lengths)
      requires |table| == SLOTS
      ensures var n := table[bits % SLOTS] % 16;
              n <= count &&
              match Symbol(lengths, Rest())
              case Ok(t) => 0 < n <= |Rest()| && t == Taken(table[bits % SLOTS] / 16, Rest()[n..])
              case Err(_) => n == 0 || n > |Rest()|
    {
      hide LowBits, Pow2, BytesToBits, Delivered, IsTable, Kraft, Code, CodeBits;
      var word, rest := bits % SLOTS, Rest();
      Words();
      LowBitsModulo(bits, 15);
      LookupDecodes(table, lengths, word);
      var n, s := table[word] % 16, table[word] / 16;
      match Symbol(lengths, rest)
      case Ok(t) =>
        BeginsMatches(lengths, t.value);
      case Err(_) =>
        if 0 < n <= |rest| {
          MatchesBegins(lengths, s);
        }
    }

    lemma BeginsMatches(lengths: seq<nat>, s: nat)
      requires Valid() && count >= 15 && Begins(lengths, s, Rest())
      ensures Matches(lengths, s, bits % SLOTS)
    {
      hide BytesToBits, Delivered, Code, CodeBits, Pow2, LowBits;
      var n := lengths[s];
      Words();
      LowBitsModulo(bits, 15);
      Register(n);
      LowBitsPrefix(bits, n, 15);
    }

    lemma MatchesBegins(lengths: seq<nat>, s: nat)
      requires Valid() && count >= 15 && Matches(lengths, s, bits % SLOTS) && lengths[s] <= |Rest()|
      ensures Begins(lengths, s, Rest())
    {
      hide BytesToBits, Delivered, Code, CodeBits, Pow2, LowBits;
      var n := lengths[s];
      Words();
      LowBitsModulo(bits, 15);
      Register(n);
      LowBitsPrefix(bits, n, 15);
    }

    /** Hands the output on, but for its last `keep` bytes. */
    method Emit(keep: nat)
      modifies this`window, this`sink
      ensures Output() == old(Output())
      ensures |window| == if keep < |old(window)| then keep else |old(window)|
    {
      var kept := if keep < |window| then keep else |window|;
      Regroup(sink, window, |window| - kept);
      sink := sink + window[..|window| - kept];
      window := window[|window| - kept..];
    }

    method Put(value: nat)
      requires Valid()
      modifies this`window, this`sink
      ensures Valid() && Output() == old(Output()) + [value]
    {
      window := window + [value];
      assert Output() == old(Output()) + [value];
      if |window| >= FLUSH_AT {
        Emit(WINDOW);
      }
    }

    method CopyBack(back: nat, length: nat)
      requires Valid() && 0 < back <= |window| && back <= |Output()|
      modifies this`window, this`sink
      ensures Valid() && Output() == Copy(old(Output()), back, length)
    {
      hide Pow2, AreBytes, Copy;
      var copied := 0;
      while copied < length
        modifies this`window
        invariant copied <= length && back <= |window| <= |Output()|
        invariant sink == [] || WINDOW <= |window|
        invariant Copy(Output(), back, length - copied) == Copy(old(Output()), back, length)
      {
        CopyStep(sink, window, back, length - copied);
        window := window + [window[|window| - back]];
        copied := copied + 1;
      }
      CopyDone(Output(), back);
      if |window| >= FLUSH_AT {
        Emit(WINDOW);
      }
    }

    /** The window is enough: it holds the whole output or the last 32 KiB, and no distance is larger. */
    lemma WindowSuffices(back: nat)
      requires Valid() && back <= WINDOW
      ensures back <= |window| <==> back <= |Output()|
    {
    }

    /** The register's bits beyond a byte boundary are the input's. */
    lemma Alignment()
      requires Valid()
      ensures |Rest()| % 8 == count % 8 && count % 8 <= |Rest()|
    {
    }

    method StoredBlock() returns (r: Result<()>)
      requires Valid()
      modifies this
      ensures Output() == Stored(old(Rest()), old(Output())).out
      ensures match Stored(old(Rest()), old(Output())).end
              case Ok(rest) => r.Ok? && Valid() && Rest() == rest
              case Err(_) => r == Err(21)
    {
      hide LowBits, Pow2, BytesToBits, Delivered, Rest, Ready, AreBytes, Take;
      Alignment();
      var boundary := Drop(count % 8);
      var length :- TakeBits(16);
      var complement :- TakeBits(16);
      if length + complement != 0xFFFF {
        return Err(21);
      }
      ghost var rest, out := Rest(), Output();
      var index := 0;
      while index < length
        invariant Valid() && index <= length
        invariant Bytes(length - index, Rest(), Output()) == Bytes(length, rest, out)
      {
        var value :- TakeBits(8);
        Put(value);
        index := index + 1;
      }
      return Ok(());
    }

    method CompressedBlock(literal: seq<nat>, distance: seq<nat>, ghost literals: seq<nat>, ghost distances: seq<nat>)
      returns (r: Result<()>)
      requires Valid() && Huffman.Lengths(literals) && Kraft(literals) <= SLOTS && IsTable(literal, literals)
      requires Huffman.Lengths(distances) && Kraft(distances) <= SLOTS && IsTable(distance, distances)
      modifies this
      ensures Output() == Codes(literals, distances, old(Rest()), old(Output())).out
      ensures match Codes(literals, distances, old(Rest()), old(Output())).end
              case Ok(rest) => r.Ok? && Valid() && Rest() == rest
              case Err(_) => r == Err(21)
    {
      hide LowBits, Pow2, BytesToBits, Delivered, Rest, Ready, AreBytes, Take, IsTable, Kraft, Huffman.Lengths;
      while true
        invariant Valid()
        invariant Codes(literals, distances, Rest(), Output()) == Codes(literals, distances, old(Rest()), old(Output()))
        decreases |Rest()|
      {
        var symbol :- Decode(literal, literals);
        if symbol < 256 {
          Put(symbol);
          continue;
        }
        if symbol == 256 {
          return Ok(());
        }
        if symbol > 285 {
          return Err(21);
        }
        var reference :- BackReference(symbol, distance, distances);
        WindowSuffices(reference.1);
        if reference.1 > |window| {
          return Err(21);
        }
        CopyBack(reference.1, reference.0);
      }
    }

    /** Reads the rest of a back-reference: its length and its distance. */
    method BackReference(symbol: nat, distance: seq<nat>, ghost distances: seq<nat>) returns (r: Result<(nat, nat)>)
      requires Valid() && 257 <= symbol <= 285
      requires Huffman.Lengths(distances) && Kraft(distances) <= SLOTS && IsTable(distance, distances)
      modifies this`pieces, this`input, this`position, this`exhausted, this`bits, this`count, this`padding
      ensures match Match(symbol, distances, old(Rest()))
              case Ok(m) => r == Ok((m.length, m.back)) && Valid() && Rest() == m.rest
              case Err(_) => r == Err(21)
    {
      hide LowBits, Pow2, BytesToBits, Delivered, Rest, Ready, AreBytes, Take, IsTable, Kraft, Huffman.Lengths, BASE,
           EXTRA, OFFSET, SPREAD;
      Alphabets();
      var extra :- TakeBits(EXTRA[symbol - 257]);
      var code :- Decode(distance, distances);
      if code > 29 {
        return Err(21);
      }
      var spread :- TakeBits(SPREAD[code]);
      return Ok((BASE[symbol - 257] + extra, OFFSET[code] + spread));
    }

    /** Reads a dynamic block's code lengths and builds its tables. */
    method DynamicTables() returns (r: Result<(seq<nat>, seq<nat>)>)
      requires Valid()
      modifies this`pieces, this`input, this`position, this`exhausted, this`bits, this`count, this`padding
      ensures match Dynamic(old(Rest()))
              case Ok(book) =>
                && r.Ok? && Valid() && Rest() == book.rest
                && Huffman.Lengths(book.literal) && Kraft(book.literal) <= SLOTS && IsTable(r.value.0, book.literal)
                && Huffman.Lengths(book.distance) && Kraft(book.distance) <= SLOTS && IsTable(r.value.1, book.distance)
              case Err(_) => r == Err(21)
    {
      hide LowBits, Pow2, BytesToBits, Delivered, Rest, Ready, AreBytes, Take, IsTable, Kraft, CountsOf, Header,
           RunLengths, Huffman.Lengths;
      var counts :- ReadCounts();
      var alphabet :- ReadHeader(counts.2);
      var table :- Build(alphabet);
      var lengths :- ReadRuns(table, alphabet, counts.0 + counts.1);
      SplitLengths(lengths, counts.0);
      if lengths[256] == 0 {
        return Err(21);
      }
      var literal :- Build(lengths[..counts.0]);
      var distance :- Build(lengths[counts.0..]);
      return Ok((literal, distance));
    }

    method ReadCounts() returns (r: Result<(nat, nat, nat)>)
      requires Valid()
      modifies this`pieces, this`input, this`position, this`exhausted, this`bits, this`count, this`padding
      ensures match CountsOf(old(Rest()))
              case Ok(c) => r == Ok((c.literals, c.distances, c.header)) && Valid() && Rest() == c.rest
              case Err(_) => r == Err(21)
    {
      hide LowBits, Pow2, BytesToBits, Delivered, Rest, Ready, AreBytes, Take;
      var literals :- TakeBits(5);
      var distances :- TakeBits(5);
      var header :- TakeBits(4);
      if literals + 257 > 286 || distances + 1 > 30 {
        return Err(21);
      }
      return Ok((literals + 257, distances + 1, header + 4));
    }

    method ReadHeader(header: nat) returns (r: Result<seq<nat>>)
      requires Valid() && header <= 19
      modifies this`pieces, this`input, this`position, this`exhausted, this`bits, this`count, this`padding
      ensures match Header(header, 0, Repeat(0, 19), old(Rest()))
              case Ok(l) => r == Ok(l.lengths) && Valid() && Rest() == l.rest
              case Err(_) => r == Err(21)
    {
      hide LowBits, BytesToBits, Delivered, Rest, Ready, AreBytes, Take;
      var lengths := Repeat(0, 19);
      var index := 0;
      while index < header
        invariant Valid() && index <= header && |lengths| == 19 && Huffman.Lengths(lengths)
        invariant Header(header, index, lengths, Rest()) == Header(header, 0, Repeat(0, 19), old(Rest()))
      {
        var length :- TakeBits(3);
        Powers();
        lengths := lengths[ORDER[index] := length];
        index := index + 1;
      }
      return Ok(lengths);
    }

    method ReadRuns(table: seq<nat>, ghost alphabet: seq<nat>, total: nat) returns (r: Result<seq<nat>>)
      requires Valid() && |alphabet| == 19 && Huffman.Lengths(alphabet) && Kraft(alphabet) <= SLOTS
               && IsTable(table, alphabet)
      modifies this`pieces, this`input, this`position, this`exhausted, this`bits, this`count, this`padding
      ensures match RunLengths(alphabet, total, [], old(Rest()))
              case Ok(l) => r == Ok(l.lengths) && Valid() && Rest() == l.rest
              case Err(_) => r == Err(21)
    {
      hide Rest, Ready, IsTable, Kraft, Huffman.Lengths, RunLengths;
      NoLengths();
      var lengths: seq<nat> := [];
      while |lengths| < total
        invariant Valid() && |lengths| <= total && Huffman.Lengths(lengths)
        invariant RunLengths(alphabet, total, lengths, Rest()) == RunLengths(alphabet, total, [], old(Rest()))
        decreases |Rest()|
      {
        lengths :- ReadRun(table, alphabet, total, lengths);
      }
      AllLengths(alphabet, total, lengths, Rest());
      return Ok(lengths);
    }

    /** One symbol of the code length alphabet: a length, or a run of them. */
    method ReadRun(table: seq<nat>, ghost alphabet: seq<nat>, total: nat, lengths: seq<nat>)
      returns (r: Result<seq<nat>>)
      requires Valid() && |alphabet| == 19 && Huffman.Lengths(alphabet) && Kraft(alphabet) <= SLOTS
               && IsTable(table, alphabet) && Huffman.Lengths(lengths) && |lengths| < total
      modifies this`pieces, this`input, this`position, this`exhausted, this`bits, this`count, this`padding
      ensures match r
              case Ok(more) =>
                && Valid() && |lengths| <= |more| <= total && Huffman.Lengths(more) && |Rest()| < |old(Rest())|
                && RunLengths(alphabet, total, more, Rest()) == RunLengths(alphabet, total, lengths, old(Rest()))
              case Err(code) => code == 21 && RunLengths(alphabet, total, lengths, old(Rest())).Err?
    {
      hide LowBits, Pow2, BytesToBits, Delivered, Rest, Ready, AreBytes, Take, IsTable, Kraft, Huffman.Lengths;
      var symbol :- Decode(table, alphabet);
      LastLength(lengths);
      if symbol < 16 {
        OneMoreLength(lengths, symbol);
        return Ok(lengths + [symbol]);
      }
      if symbol == 16 && lengths == [] {
        return Err(21);
      }
      var value := if symbol == 16 then lengths[|lengths| - 1] else 0;
      var extra :- TakeBits(if symbol == 16 then 2 else if symbol == 17 then 3 else 7);
      var repeat := (if symbol == 18 then 11 else 3) + extra;
      if |lengths| + repeat > total {
        return Err(21);
      }
      MoreLengths(lengths, value, repeat);
      return Ok(lengths + Repeat(value, repeat));
    }

    /** Inflates the whole stream: what is handed on is its output; of a refused one, a part of what was decoded. */
    method Run() returns (r: Result<()>)
      requires Valid() && Output() == []
      modifies this
      ensures match Finished(old(Rest())).end
              case Ok(_) => r.Ok? && sink == Finished(old(Rest())).out
              case Err(_) => r == Err(21) && sink <= Finished(old(Rest())).out
    {
      hide LowBits, Pow2, BytesToBits, Delivered, Rest, Ready, AreBytes, Take, IsTable, Kraft, Huffman.Lengths, Codes,
           Stored;
      FixedCodes();
      var literal := Build(FIXED_LITERAL);
      var distance := Build(FIXED_DISTANCE);
      var last := false;
      while !last
        invariant Valid()
        invariant Blocks(old(Rest()), []) == if last then Decoded(Output(), Ok(Rest())) else Blocks(Rest(), Output())
        decreases !last, |Rest()|
      {
        var flag :- TakeBits(1);
        last := flag != 0;
        var kind :- TakeBits(2);
        Shorter(kind, Rest(), Output());
        if kind == 0 {
          var _ :- StoredBlock();
        } else if kind == 1 {
          var _ :- CompressedBlock(literal.value, distance.value, FIXED_LITERAL, FIXED_DISTANCE);
        } else if kind == 2 {
          ghost var book := Dynamic(Rest());
          var tables :- DynamicTables();
          var _ :- CompressedBlock(tables.0, tables.1, book.value.literal, book.value.distance);
        } else {
          return Err(21);
        }
      }
      Leftover();
      if count - 8 * padding >= 8 {
        return Err(21);
      }
      var spare := Byte();
      if spare.Some? {
        return Err(21);
      }
      Emit(0);
      return Ok(());
    }

    lemma Leftover()
      requires Valid()
      ensures |Rest()| >= 8 <==> count - 8 * padding >= 8 || Unread() != []
    {
    }
  }

  /** The fixed codes fill the code space, or leave room. */
  lemma FixedCodes()
    ensures Huffman.Lengths(FIXED_LITERAL) && Kraft(FIXED_LITERAL) <= SLOTS
    ensures Huffman.Lengths(FIXED_DISTANCE) && Kraft(FIXED_DISTANCE) <= SLOTS
  {
    Powers();
    KraftConcat(Repeat(8, 144), Repeat(9, 112));
    KraftConcat(Repeat(8, 144) + Repeat(9, 112), Repeat(7, 24));
    KraftConcat(Repeat(8, 144) + Repeat(9, 112) + Repeat(7, 24), Repeat(8, 8));
    KraftRepeat(8, 144);
    KraftRepeat(9, 112);
    KraftRepeat(7, 24);
    KraftRepeat(8, 8);
    KraftRepeat(5, 30);
  }

  lemma {:induction false} KraftConcat(a: seq<nat>, b: seq<nat>)
    ensures Kraft(a + b) == Kraft(a) + Kraft(b)
  {
    if b == [] {
      assert a + b == a;
    } else {
      assert (a + b)[..|a + b| - 1] == a + b[..|b| - 1];
      KraftConcat(a, b[..|b| - 1]);
    }
  }

  lemma {:induction false} KraftRepeat(value: nat, n: nat)
    ensures Kraft(Repeat(value, n)) == n * Weight(value)
  {
    if n > 0 {
      assert Repeat(value, n)[..n - 1] == Repeat(value, n - 1);
      KraftRepeat(value, n - 1);
      Distribute(n - 1, 1, Weight(value));
    }
  }

  lemma FirstOf(input: seq<nat>, position: nat, more: seq<nat>)
    requires position < |input|
    ensures var unread := input[position..] + more;
            unread != [] && unread[0] == input[position] && unread[1..] == input[position + 1..] + more
  {
  }

  lemma Regroup(sink: seq<nat>, window: seq<nat>, n: nat)
    requires n <= |window|
    ensures sink + window[..n] + window[n..] == sink + window
  {
    assert window == window[..n] + window[n..];
  }

  lemma AllLengths(alphabet: seq<nat>, total: nat, lengths: seq<nat>, rest: seq<Bit>)
    requires |alphabet| == 19 && |lengths| == total && Huffman.Lengths(lengths)
    ensures RunLengths(alphabet, total, lengths, rest) == Ok(Deflate.Lists(lengths, rest))
  {
  }

  lemma NoLengths()
    ensures Huffman.Lengths([])
  {
  }

  lemma OneMoreLength(lengths: seq<nat>, value: nat)
    requires Huffman.Lengths(lengths) && value <= 15
    ensures Huffman.Lengths(lengths + [value])
  {
  }

  lemma MoreLengths(lengths: seq<nat>, value: nat, n: nat)
    requires Huffman.Lengths(lengths) && value <= 15
    ensures Huffman.Lengths(lengths + Repeat(value, n))
  {
  }

  lemma LastLength(lengths: seq<nat>)
    requires Huffman.Lengths(lengths)
    ensures lengths != [] ==> lengths[|lengths| - 1] <= 15
  {
  }

  lemma SplitLengths(lengths: seq<nat>, n: nat)
    requires Huffman.Lengths(lengths) && n <= |lengths|
    ensures Huffman.Lengths(lengths[..n]) && Huffman.Lengths(lengths[n..])
  {
  }

  lemma CopyStep(sink: seq<nat>, window: seq<nat>, back: nat, n: nat)
    requires 0 < back <= |window| && n > 0
    ensures Copy(sink + window, back, n) == Copy(sink + (window + [window[|window| - back]]), back, n - 1)
  {
    var out := sink + window;
    assert out[|out| - back] == window[|window| - back];
    assert out + [out[|out| - back]] == sink + (window + [window[|window| - back]]);
  }

  lemma CopyDone(out: seq<nat>, back: nat)
    requires 0 < back <= |out|
    ensures Copy(out, back, 0) == out
  {
  }

  lemma TableSize(table: seq<nat>, lengths: seq<nat>)
    requires IsTable(table, lengths)
    ensures |table| == SLOTS
  {
  }

  /** Moving a byte into the register does not change the remaining bits. */
  lemma ByteMoves(v: nat, n: nat, byte: nat, unread: seq<nat>)
    requires v < Pow2(n) && byte < 256 && unread != [] && unread[0] == byte
    ensures v + ShiftLeft(byte, n) < Pow2(n + 8)
    ensures LowBits(v + ShiftLeft(byte, n), n + 8) + BytesToBits(unread[1..]) == LowBits(v, n) + BytesToBits(unread)
  {
    Powers();
    ShiftLeftFits(v, n, byte, 8);
    LowBitsAppend(v, n, byte, 8);
    hide Pow2, LowBits;
    assert BytesToBits(unread) == LowBits(byte, 8) + BytesToBits(unread[1..]);
  }
}
