/** Splitting an archive's bytes into lines, chunk by chunk. */
module ArchiveLines {
  import opened Feed
  import opened JournalFormat

  const LONGEST := 4096

  /** What takes the lines, and whether it needs no more of them. */
  datatype Rows<!S> = Rows(line: (S, string) -> Result<S>, fenced: S -> bool)

  /** The rows' state, the first failure, and the bytes of an unfinished line. */
  datatype Outcome<S> = Outcome(state: S, failure: Option<int>, pending: string)

  function Hand<S>(rows: Rows<S>, o: Outcome<S>, line: string): Outcome<S> {
    match rows.line(o.state, line)
    case Ok(state) => Outcome(state, None, "")
    case Err(code) => Outcome(o.state, Some(code), "")
  }

  /** One chunk, as the callback takes it. */
  function Consume<S>(rows: Rows<S>, o: Outcome<S>, chunk: string): Outcome<S>
    decreases |chunk|
  {
    if o.failure.Some? || rows.fenced(o.state) || chunk == "" then o
    else
      var newline := Newline(chunk, 0);
      if newline == |chunk| then
        if |o.pending| + |chunk| > LONGEST then o.(failure := Some(23)) else o.(pending := o.pending + chunk)
      else
        Consume(rows, Hand(rows, o, o.pending + chunk[..newline]), chunk[newline + 1..])
  }

  function ConsumeAll<S>(rows: Rows<S>, o: Outcome<S>, chunks: seq<string>): Outcome<S>
    decreases |chunks|
  {
    if chunks == [] then o else ConsumeAll(rows, Consume(rows, o, chunks[0]), chunks[1..])
  }

  function Concat(chunks: seq<string>): string {
    if chunks == [] then "" else chunks[0] + Concat(chunks[1..])
  }

  /** Whether two outcomes agree; what is pending no longer matters once the rows have failed or are fenced. */
  predicate Same<S(==)>(rows: Rows<S>, a: Outcome<S>, b: Outcome<S>) {
    && a.state == b.state && a.failure == b.failure
    && (a.failure.None? && !rows.fenced(a.state) ==> a.pending == b.pending)
  }

  /** Every line that is reached and ends in a newline is within the bound; a longer one only where the run is going to
      end as the bound's refusal would have ended it there: with 23, in that same state. */
  predicate BoundHolds<S(==)>(rows: Rows<S>, o: Outcome<S>, text: string, end: Outcome<S>)
    decreases |text|
  {
    o.failure.Some? || rows.fenced(o.state) || text == "" ||
    var newline := Newline(text, 0);
    newline == |text| || ((|o.pending| + newline <= LONGEST || (o.state == end.state && end.failure == Some(23)))
                          && BoundHolds(rows, Hand(rows, o, o.pending + text[..newline]), text[newline + 1..], end))
  }

  /** Where the first newline of two chunks is, and what lies before and after it. */
  lemma Seams(pending: string, a: string, b: string)
    ensures var n := Newline(a, 0);
            n < |a| ==> Newline(a + b, 0) == n && (a + b)[..n] == a[..n] && (a + b)[n + 1..] == a[n + 1..] + b
    ensures var n := Newline(b, 0);
            Newline(a, 0) == |a| ==>
              && Newline(a + b, 0) == |a| + n && pending + (a + b)[..|a| + n] == pending + a + b[..n]
              && (n < |b| ==> (a + b)[|a| + n + 1..] == b[n + 1..])
    ensures pending + (a + b) == pending + a + b
  {
    hide Newline;
    NewlineInPrefix(a, b);
    var n, m := Newline(a, 0), Newline(b, 0);
    if n < |a| {
      WithinFirst(a, b, n);
    } else {
      WithinSecond(pending, a, b, m);
    }
    assert pending + (a + b) == pending + a + b;
  }

  lemma WithinFirst(a: string, b: string, n: nat)
    requires n < |a|
    ensures (a + b)[..n] == a[..n] && (a + b)[n + 1..] == a[n + 1..] + b
  {
  }

  lemma WithinSecond(pending: string, a: string, b: string, n: nat)
    requires n <= |b|
    ensures pending + (a + b)[..|a| + n] == pending + a + b[..n]
    ensures n < |b| ==> (a + b)[|a| + n + 1..] == b[n + 1..]
  {
    assert (a + b)[..|a| + n] == a + b[..n];
    assert pending + (a + b[..n]) == pending + a + b[..n];
  }

  lemma NewlineInPrefix(a: string, b: string)
    ensures Newline(a, 0) < |a| ==> Newline(a + b, 0) == Newline(a, 0)
    ensures Newline(a, 0) == |a| ==> Newline(a + b, 0) == |a| + Newline(b, 0)
  {
    var n, m := Newline(a + b, 0), if Newline(a, 0) < |a| then Newline(a, 0) else |a| + Newline(b, 0);
    forall i | 0 <= i < m
      ensures (a + b)[i] != '\n'
    {
      assert (a + b)[i] == if i < |a| then a[i] else b[i - |a|];
    }
    assert m < |a + b| ==> (a + b)[m] == '\n';
  }

  /** Two chunks in a row do what their concatenation does. */
  lemma {:induction false} ConsumeConcat<S>(rows: Rows<S>, o: Outcome<S>, a: string, b: string, end: Outcome<S>)
    requires BoundHolds(rows, o, a + b, end) && Same(rows, end, Consume(rows, o, a + b)) && |o.pending| <= LONGEST
    ensures Same(rows, Consume(rows, Consume(rows, o, a), b), end)
    ensures BoundHolds(rows, Consume(rows, o, a), b, end) && |Consume(rows, o, a).pending| <= LONGEST
    decreases |a|
  {
    hide Newline;
    if o.failure.Some? || rows.fenced(o.state) {
    } else if a == "" {
      assert a + b == b;
    } else {
      Seams(o.pending, a, b);
      var newline := Newline(a, 0);
      if newline < |a| {
        ConsumeConcat(rows, Hand(rows, o, o.pending + a[..newline]), a[newline + 1..], b, end);
      } else if b == "" {
        assert a + b == a;
      }
    }
  }

  /** Any chunks of a text that keeps the bound do what the whole text in one chunk does. */
  lemma {:induction false} ChunksAgree<S>(rows: Rows<S>, o: Outcome<S>, chunks: seq<string>, end: Outcome<S>)
    requires BoundHolds(rows, o, Concat(chunks), end) && Same(rows, end, Consume(rows, o, Concat(chunks)))
    requires |o.pending| <= LONGEST
    ensures Same(rows, ConsumeAll(rows, o, chunks), end)
    decreases |chunks|
  {
    if chunks != [] {
      var rest := Concat(chunks[1..]);
      ConsumeConcat(rows, o, chunks[0], rest, end);
      ChunksAgree(rows, Consume(rows, o, chunks[0]), chunks[1..], end);
    }
  }

  /** Splitting a text just before the newline of a longer line stops there, while the whole text goes on. */
  lemma {:induction false} LongLineSplits<S>(rows: Rows<S>, o: Outcome<S>, text: string, end: Outcome<S>)
      returns (a: string, b: string)
    requires !BoundHolds(rows, o, text, end) && o.pending == ""
    ensures a + b == text && !Same(rows, Consume(rows, Consume(rows, o, a), b), end)
    decreases |text|
  {
    hide Newline;
    var newline := Newline(text, 0);
    var next := Hand(rows, o, o.pending + text[..newline]);
    if newline > LONGEST && !(o.state == end.state && end.failure == Some(23)) {
      a, b := text[..newline], text[newline..];
      PrefixHasNoNewline(text);
    } else {
      a, b := LongLineSplits(rows, next, text[newline + 1..], end);
      a := text[..newline + 1] + a;
      FirstLine(text, a, newline);
    }
  }

  lemma PrefixHasNoNewline(text: string)
    ensures Newline(text[..Newline(text, 0)], 0) == Newline(text, 0)
  {
  }

  lemma FirstLine(text: string, a: string, newline: nat)
    requires newline == Newline(text, 0) < |text| && newline < |a| && a[..newline + 1] == text[..newline + 1]
    ensures Newline(a, 0) == newline && a[..newline] == text[..newline]
  {
    forall i | 0 <= i <= newline
      ensures a[i] == text[i]
    {
      assert a[i] == a[..newline + 1][i] == text[..newline + 1][i];
    }
    assert a[newline] == '\n';
    assert a[..newline] == a[..newline + 1][..newline];
  }

  /**
   * What an archive does depends only on its bytes, however they arrive in chunks, exactly when no terminated line
   * that is reached is longer than 4096 bytes, unless the run ends with 23 in the state that line was reached in
   * anyway: a longer line is refused only where a chunk ends inside it.
   */
  lemma ChunkIndependence<S>(rows: Rows<S>, o: Outcome<S>, text: string)
    requires o.pending == ""
    ensures BoundHolds(rows, o, text, Consume(rows, o, text))
       <==> forall chunks :: Concat(chunks) == text ==> Same(rows, ConsumeAll(rows, o, chunks), Consume(rows, o, text))
  {
    var end := Consume(rows, o, text);
    if BoundHolds(rows, o, text, end) {
      forall chunks | Concat(chunks) == text
        ensures Same(rows, ConsumeAll(rows, o, chunks), end)
      {
        ChunksAgree(rows, o, chunks, end);
      }
    } else {
      var a, b := LongLineSplits(rows, o, text, end);
      var chunks := [a, b];
      TwoChunks(rows, o, a, b);
      assert Concat(chunks) == text && !Same(rows, ConsumeAll(rows, o, chunks), end);
    }
  }

  lemma TwoChunks<S>(rows: Rows<S>, o: Outcome<S>, a: string, b: string)
    ensures Concat([a, b]) == a + b
    ensures ConsumeAll(rows, o, [a, b]) == Consume(rows, Consume(rows, o, a), b)
  {
    hide Consume;
    assert [a, b][1..] == [b] && [b][1..] == [];
    assert Concat([]) == "" && Concat([b]) == b + "" == b && Concat([a, b]) == a + Concat([b]);
    var first := Consume(rows, o, a);
    assert ConsumeAll(rows, first, [b]) == ConsumeAll(rows, Consume(rows, first, b), []);
    assert ConsumeAll(rows, o, [a, b]) == ConsumeAll(rows, first, [b]);
  }

  /** At the end of the archive an unfinished line is handed on. */
  function Finish<S>(rows: Rows<S>, o: Outcome<S>): Outcome<S> {
    if o.failure.None? && !rows.fenced(o.state) && o.pending != "" then Hand(rows, o, o.pending) else o
  }

  /** An unfinished last line is taken as if it had its newline; a finished archive is left as it is. */
  lemma LastLineCounts<S>(rows: Rows<S>, o: Outcome<S>, text: string)
    ensures var end := Consume(rows, o, text);
            Finish(rows, end) == if end.failure.None? && !rows.fenced(end.state) && end.pending != ""
                                 then Consume(rows, end, "\n") else end
  {
    var end := Consume(rows, o, text);
    assert Newline("\n", 0) == 0 && "\n"[..0] == "" && "\n"[1..] == "" && end.pending + "" == end.pending;
  }

  class Splitter<S(!new)> {
    const rows: Rows<S>
    var state: S
    var failure: Option<int>
    var pending: string

    ghost function Now(): Outcome<S>
      reads this
    {
      Outcome(state, failure, pending)
    }

    constructor (rows: Rows<S>, state: S)
      ensures this.rows == rows && Now() == Outcome(state, None, "")
    {
      this.rows, this.state, failure, pending := rows, state, None, "";
    }

    method Line(text: string) returns (ok: bool)
      requires failure == None
      modifies this
      ensures Now() == Hand(rows, old(Now()).(pending := pending), text).(pending := pending)
      ensures pending == old(pending) && ok == failure.None?
    {
      match rows.line(state, text)
      case Ok(next) =>
        state := next;
        return true;
      case Err(code) =>
        failure := Some(code);
        return false;
    }

    /** Takes one chunk of the archive's bytes. */
    method Bytes(chunk: string)
      modifies this
      ensures Same(rows, Now(), Consume(rows, old(Now()), chunk))
    {
      if failure.Some? || rows.fenced(state) {
        return;
      }
      var rest := chunk;
      while rest != "" && !rows.fenced(state)
        invariant failure == None
        invariant Consume(rows, Now(), rest) == Consume(rows, old(Now()), chunk)
        decreases |rest|
      {
        var newline := Newline(rest, 0);
        if newline == |rest| {
          if |pending| + |rest| > LONGEST {
            failure := Some(23);
            return;
          }
          pending := pending + rest;
          return;
        }
        ghost var before := Now();
        var ok: bool;
        if pending == "" {
          assert "" + rest[..newline] == rest[..newline];
          ok := Line(rest[..newline]);
        } else {
          pending := pending + rest[..newline];
          ok := Line(pending);
          if ok {
            pending := "";
          }
        }
        if !ok {
          return;
        }
        rest := rest[newline + 1..];
      }
    }
  }
}
