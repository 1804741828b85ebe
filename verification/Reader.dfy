/** A client's reader over the journal's segment files while the producer appends, seals and expires them. */
module Reader {
  import opened Feed
  import opened Ordered
  import opened JournalFormat

  const COMPACT_AT := 65536

  /** The committed lines, all segments ever begun, their files' bytes, and the files still listed. */
  datatype Files = Files(log: seq<string>, bases: seq<nat>, contents: map<nat, string>, present: set<nat>)

  function EndOf(f: Files, i: nat): nat
    requires i < |f.bases|
  {
    if i + 1 < |f.bases| then f.bases[i + 1] else |f.log|
  }

  /** A sealed segment holds exactly its lines; the open one may run ahead of the committed log. */
  ghost predicate HoldsLines(f: Files, i: nat)
    requires i < |f.bases|
  {
    var base, end := f.bases[i], EndOf(f, i);
    && base <= end <= |f.log| && base in f.contents
    && Bytes(f.log[base..end]) <= f.contents[base]
    && (i + 1 < |f.bases| ==> base < end && f.contents[base] == Bytes(f.log[base..end]))
  }

  ghost predicate Sound(f: Files) {
    && ValidLines(f.log) && f.bases != [] && f.bases[0] == 0
    && (forall i :: 0 <= i < |f.bases| ==> HoldsLines(f, i))
    && (forall b :: b in f.present ==> b in f.bases)
  }

  /** What the producer may do meanwhile: append, begin segments at the committed head, and expire. */
  ghost predicate Later(f: Files, g: Files) {
    && f.log <= g.log && f.bases <= g.bases
    && (forall i :: |f.bases| <= i < |g.bases| ==> g.bases[i] >= |f.log|)
    && (forall b :: b in f.bases && b in f.contents && b in g.contents ==> f.contents[b] <= g.contents[b])
    && (forall b :: b in f.bases && b in g.present ==> b in f.present)
  }

  ghost predicate Producing(world: nat -> Files) {
    && (forall t :: Sound(world(t)))
    && (forall s, t :: s <= t ==> Later(world(s), world(t)))
  }

  lemma Clock(world: nat -> Files, s: nat, t: nat)
    requires Producing(world) && s <= t
    ensures Sound(world(s)) && Sound(world(t)) && Later(world(s), world(t))
  {
  }

  /** A reader between two lines: it has taken `position` bytes, and those beyond line `index` are in its buffer. */
  ghost predicate Placed(f: Files, segment: nat, base: nat, position: nat, ahead: string, index: nat) {
    && segment < |f.bases| && base == f.bases[segment] && base <= index <= EndOf(f, segment) <= |f.log|
    && base in f.contents && position <= |f.contents[base]|
    && f.contents[base][..position] == Bytes(f.log[base..index]) + ahead
  }

  lemma SegmentFacts(f: Files, i: nat)
    requires Sound(f) && i < |f.bases|
    ensures f.bases[i] <= EndOf(f, i) <= |f.log| && f.bases[i] in f.contents
    ensures Bytes(f.log[f.bases[i]..EndOf(f, i)]) <= f.contents[f.bases[i]]
    ensures i + 1 < |f.bases| ==> f.contents[f.bases[i]] == Bytes(f.log[f.bases[i]..EndOf(f, i)])
                                  && f.bases[i] < EndOf(f, i)
  {
    hide Bytes;
    assert HoldsLines(f, i);
  }

  lemma LaterFacts(f: Files, g: Files, i: nat)
    requires Sound(f) && Sound(g) && Later(f, g) && i < |f.bases|
    ensures i < |g.bases| && g.bases[i] == f.bases[i] && EndOf(f, i) <= EndOf(g, i) && f.log <= g.log
    ensures f.bases[i] in f.contents && f.bases[i] in g.contents && f.contents[f.bases[i]] <= g.contents[f.bases[i]]
  {
    hide Bytes;
    SegmentFacts(f, i);
    assert g.bases[i] == f.bases[i] && f.bases[i] in f.bases;
    SegmentFacts(g, i);
  }

  lemma StillPlaced(f: Files, g: Files, segment: nat, base: nat, position: nat, ahead: string, index: nat)
    requires Sound(f) && Sound(g) && Later(f, g) && Placed(f, segment, base, position, ahead, index)
    ensures Placed(g, segment, base, position, ahead, index)
  {
    hide Bytes, Sound, Later;
    LaterFacts(f, g, segment);
    SegmentFacts(g, segment);
    SamePrefix(f.contents[base], g.contents[base], position);
    SameSlice(f.log, g.log, base, index);
  }

  lemma SamePrefix<T>(a: seq<T>, b: seq<T>, n: nat)
    requires a <= b && n <= |a|
    ensures a[..n] == b[..n]
  {
  }

  lemma SameSlice<T>(a: seq<T>, b: seq<T>, m: nat, n: nat)
    requires a <= b && m <= n <= |a|
    ensures a[m..n] == b[m..n]
  {
    assert a == b[..|a|];
  }

  /** What is ahead: the rest of this segment's committed lines, and exactly those once it is sealed. */
  lemma AheadIsLines(f: Files, segment: nat, base: nat, position: nat, ahead: string, index: nat)
    requires Sound(f) && Placed(f, segment, base, position, ahead, index)
    ensures var rest := ahead + f.contents[base][position..];
            && Bytes(f.log[index..EndOf(f, segment)]) <= rest
            && (segment + 1 < |f.bases| ==> rest == Bytes(f.log[index..EndOf(f, segment)]))
  {
    hide Bytes, Sound;
    SegmentFacts(f, segment);
    var end := EndOf(f, segment);
    assert f.log[base..end] == f.log[base..index] + f.log[index..end];
    BytesConcat(f.log[base..index], f.log[index..end]);
    Remaining(f.contents[base], position, Bytes(f.log[base..index]), ahead, Bytes(f.log[index..end]));
  }

  lemma Remaining(content: string, position: nat, done: string, ahead: string, more: string)
    requires position <= |content| && content[..position] == done + ahead && done + more <= content
    ensures more <= ahead + content[position..]
    ensures content == done + more ==> ahead + content[position..] == more
  {
    var rest := ahead + content[position..];
    assert content == content[..position] + content[position..];
    assert content == done + rest;
    assert rest == content[|done|..];
    assert more == (done + more)[|done|..];
    assert more == content[|done|..|done| + |more|] == rest[..|more|];
  }

  /** With a committed line ahead, the buffer holds it whole or holds a part of it without its newline. */
  lemma LineAhead(f: Files, segment: nat, base: nat, position: nat, buffer: string, offset: nat, index: nat)
    requires Sound(f) && offset <= |buffer| && Placed(f, segment, base, position, buffer[offset..], index)
    requires index < EndOf(f, segment)
    ensures var line := f.log[index];
            if |buffer| - offset > |line|
            then Newline(buffer, offset) == offset + |line| && line + "\n" <= buffer[offset..]
              && buffer[offset..offset + |line|] == line
            else Newline(buffer, offset) == |buffer| && position < |f.contents[base]|
  {
    hide Bytes, Newline;
    var line, lines := f.log[index], f.log[index..EndOf(f, segment)];
    AheadIsLines(f, segment, base, position, buffer[offset..], index);
    BytesHead(lines);
    LineIsValid(f, index);
    hide Sound;
    PrefixOfSum(line + "\n", Bytes(lines[1..]), buffer[offset..] + f.contents[base][position..]);
    BufferedLine(buffer, offset, f.contents[base][position..], line);
  }

  lemma LineIsValid(f: Files, index: nat)
    requires Sound(f) && index < |f.log|
    ensures ValidLine(f.log[index])
  {
  }

  lemma PrefixOfSum(a: string, b: string, c: string)
    requires a + b <= c
    ensures a <= c
  {
    assert a == (a + b)[..|a|] == c[..|a|];
  }

  lemma BufferedLine(buffer: string, offset: nat, unread: string, line: string)
    requires offset <= |buffer| && line + "\n" <= buffer[offset..] + unread && ValidLine(line)
    ensures if |buffer| - offset > |line|
            then Newline(buffer, offset) == offset + |line| && line + "\n" <= buffer[offset..]
              && buffer[offset..offset + |line|] == line
            else Newline(buffer, offset) == |buffer| && unread != ""
  {
    hide Newline;
    var rest := buffer[offset..] + unread;
    assert forall i :: 0 <= i < |line| ==> rest[i] == (line + "\n")[i] == line[i];
    assert rest[|line|] == (line + "\n")[|line|] == '\n';
    if |buffer| - offset > |line| {
      assert buffer[offset..offset + |line|] == line;
      assert buffer[offset + |line|] == rest[|line|];
      NewlineAt(buffer, offset, line);
    } else {
      assert forall i :: offset <= i < |buffer| ==> buffer[i] == rest[i - offset] == line[i - offset];
    }
  }

  lemma Stepped(f: Files, segment: nat, base: nat, position: nat, ahead: string, index: nat)
    requires Sound(f) && Placed(f, segment, base, position, ahead, index) && index < EndOf(f, segment)
    requires f.log[index] + "\n" <= ahead
    ensures Placed(f, segment, base, position, ahead[|f.log[index]| + 1..], index + 1)
  {
    hide Sound, Bytes;
    var line := f.log[index];
    assert f.log[base..index + 1] == f.log[base..index] + [line];
    BytesConcat(f.log[base..index], [line]);
    OneLine(line);
    Regroup(Bytes(f.log[base..index]), line + "\n", ahead);
  }

  lemma Regroup(done: string, line: string, ahead: string)
    requires line <= ahead
    ensures done + ahead == (done + line) + ahead[|line|..]
  {
    assert ahead == line + ahead[|line|..];
  }

  lemma OneLine(line: string)
    ensures Bytes([line]) == line + "\n"
  {
    assert [line][..0] == [];
  }

  /** At the end of a sealed segment nothing is ahead, and its successor starts at this index. */
  lemma SegmentEnd(f: Files, segment: nat, base: nat, position: nat, ahead: string, index: nat)
    requires Sound(f) && Placed(f, segment, base, position, ahead, index) && index == EndOf(f, segment)
             && index < |f.log|
    ensures ahead == "" && position == |f.contents[base]|
    ensures segment + 1 < |f.bases| && f.bases[segment + 1] == index < EndOf(f, segment + 1)
    ensures Placed(f, segment + 1, index, 0, "", index)
  {
    hide Bytes, Sound;
    SegmentFacts(f, segment);
    assert segment + 1 < |f.bases|;
    SegmentFacts(f, segment + 1);
    assert f.log[index..index] == [];
    NoBytes();
    AheadIsLines(f, segment, base, position, ahead, index);
  }

  /** Whether a reader has used up its segment. */
  function AtEnd(f: Files, segment: nat, index: nat): nat {
    if segment < |f.bases| && index < EndOf(f, segment) then 0 else 1
  }

  /** Either a committed line is ahead in this segment, or the segment is sealed, used up, and its successor begins
      here. */
  lemma Whereabouts(f: Files, segment: nat, base: nat, position: nat, buffer: string, offset: nat, index: nat)
    requires Sound(f) && offset <= |buffer| && Placed(f, segment, base, position, buffer[offset..], index)
             && index < |f.log|
    ensures segment < |f.bases| && base in f.contents
    ensures if AtEnd(f, segment, index) == 0
            then var line := f.log[index];
                 if |buffer| - offset > |line|
                 then Newline(buffer, offset) == offset + |line| && line + "\n" <= buffer[offset..]
                   && buffer[offset..offset + |line|] == line
                 else Newline(buffer, offset) == |buffer| && position < |f.contents[base]|
            else offset == |buffer| && Newline(buffer, offset) == |buffer| && position == |f.contents[base]|
                 && segment + 1 < |f.bases| && f.bases[segment + 1] == index == EndOf(f, segment)
  {
    hide Bytes, Sound;
    SegmentFacts(f, segment);
    if index < EndOf(f, segment) {
      LineAhead(f, segment, base, position, buffer, offset, index);
    } else {
      SegmentEnd(f, segment, base, position, buffer[offset..], index);
    }
  }

  lemma FreshSegment(f: Files, segment: nat, base: nat, position: nat, ahead: string)
    requires Sound(f) && Placed(f, segment, base, position, ahead, base) && base < |f.log|
    ensures AtEnd(f, segment, base) == 0
  {
    hide Bytes, Sound;
    SegmentFacts(f, segment);
  }

  lemma AtEndStays(f: Files, g: Files, segment: nat, base: nat, position: nat, ahead: string, index: nat)
    requires Sound(f) && Sound(g) && Later(f, g) && Placed(f, segment, base, position, ahead, index) && index < |f.log|
    ensures segment < |g.bases| && AtEnd(g, segment, index) == AtEnd(f, segment, index)
    ensures index < |g.log| && g.log[index] == f.log[index]
    ensures base in f.contents && base in g.contents && |f.contents[base]| <= |g.contents[base]|
  {
    hide Bytes, Sound, Later;
    LaterFacts(f, g, segment);
    if segment + 1 < |f.bases| {
      LaterFacts(f, g, segment + 1);
    }
  }

  lemma EndIsBoundary(f: Files, g: Files, segment: nat, index: nat)
    requires Sound(f) && Sound(g) && Later(f, g) && segment + 1 < |f.bases| && f.bases[segment + 1] == index
             && index < |f.log|
    ensures index in g.bases && index < |g.log| && g.log[index] == f.log[index]
  {
    hide Bytes, Sound, Later;
    LaterFacts(f, g, segment + 1);
  }

  lemma ReadMore(content: string, position: nat, count: nat, done: string, buffer: string, offset: nat)
    requires position + count <= |content| && offset <= |buffer| && content[..position] == done + buffer[offset..]
    ensures content[..position + count] == done + (buffer + content[position..position + count])[offset..]
  {
    var chunk := content[position..position + count];
    DropConcat(buffer, chunk, offset);
    TakeMore(content, position, count);
    Associates(done, buffer[offset..], chunk);
  }

  lemma DropConcat(a: string, b: string, n: nat)
    requires n <= |a|
    ensures (a + b)[n..] == a[n..] + b
  {
  }

  lemma TakeMore(a: string, m: nat, n: nat)
    requires m + n <= |a|
    ensures a[..m + n] == a[..m] + a[m..m + n]
  {
  }

  lemma Associates(a: string, b: string, c: string)
    ensures (a + b) + c == a + (b + c)
  {
  }

  lemma BaseOf(f: Files, base: nat) returns (segment: nat)
    requires Sound(f) && base in f.present
    ensures segment < |f.bases| && f.bases[segment] == base
  {
    segment :| 0 <= segment < |f.bases| && f.bases[segment] == base;
  }

  lemma Beginning(f: Files, base: nat) returns (segment: nat)
    requires Sound(f) && base in f.present
    ensures Placed(f, segment, base, 0, "", base)
  {
    hide Bytes, Sound;
    segment := BaseOf(f, base);
    SegmentFacts(f, segment);
    assert f.log[base..base] == [];
    NoBytes();
  }

  // ---------- One pass of a reader's loop ----------

  /** What a reader holds between two passes. */
  datatype Place = Place(base: nat, position: nat, buffer: string, offset: nat, index: nat)

  datatype Turn = Line(line: string) | Nothing | Again(next: Place)

  function ChunkSize(size: nat): (n: nat)
    ensures 0 < n <= COMPACT_AT
  {
    if size == 0 then 1 else if size > COMPACT_AT then COMPACT_AT else size
  }

  /** A buffered line, else more bytes of the file, else the segment that starts at this index, else nothing; the read
      and the open each see the files of their own moment. */
  function Turned(read: Files, open: Files, size: nat, p: Place): Turn
    requires p.offset <= |p.buffer|
  {
    var newline := Newline(p.buffer, p.offset);
    if newline < |p.buffer| then Line(p.buffer[p.offset..newline])
    else
      var content := if p.base in read.contents then read.contents[p.base] else "";
      if p.position < |content| then
        var end := if |content| - p.position < ChunkSize(size) then |content| else p.position + ChunkSize(size);
        Again(p.(position := end, buffer := p.buffer + content[p.position..end]))
      else if p.offset == |p.buffer| && p.index in open.present then Again(Place(p.index, 0, "", 0, p.index))
      else Nothing
  }

  /** How the loop ends within `n` passes over unchanging files, when it does. */
  function Looped(f: Files, sizes: nat -> nat, p: Place, n: nat): Option<Turn>
    requires p.offset <= |p.buffer|
    decreases n
  {
    match Turned(f, f, sizes(n), p)
    case Again(next) => if n == 0 then None else Looped(f, sizes, next, n - 1)
    case done => Some(done)
  }

  ghost predicate PlacedAt(f: Files, segment: nat, p: Place) {
    p.offset <= |p.buffer| && Placed(f, segment, p.base, p.position, p.buffer[p.offset..], p.index)
  }

  /** The empty open segment starts at this index. */
  predicate Stuck(f: Files, index: nat) {
    index == |f.log| && index in f.present && index in f.contents && f.contents[index] == ""
  }

  /** There, each pass opens the segment again: the loop repeats the same state. */
  lemma StuckTurns(f: Files, size: nat, segment: nat, p: Place) returns (next: nat)
    requires Sound(f) && PlacedAt(f, segment, p) && Stuck(f, p.index)
    ensures Turned(f, f, size, p) == Again(Place(p.index, 0, "", 0, p.index))
    ensures PlacedAt(f, next, Place(p.index, 0, "", 0, p.index))
  {
    hide Bytes, Newline, ValidLines;
    next := Beginning(f, p.index);
    SegmentFacts(f, segment);
    SegmentFacts(f, next);
    HeadIsLast(f, next);
    NothingAhead(f, segment, p);
  }

  /** The segment that starts at the head is the open one. */
  lemma HeadIsLast(f: Files, i: nat)
    requires Sound(f) && i < |f.bases| && f.bases[i] == |f.log|
    ensures i + 1 == |f.bases|
  {
    hide Bytes;
    SegmentFacts(f, i);
  }

  lemma NothingAhead(f: Files, segment: nat, p: Place)
    requires Sound(f) && PlacedAt(f, segment, p) && Stuck(f, p.index)
    ensures p.offset == |p.buffer| && p.position == |f.contents[p.base]| && Newline(p.buffer, p.offset) == |p.buffer|
  {
    hide Bytes, ValidLines;
    var next := Beginning(f, p.index);
    HeadIsLast(f, next);
    SegmentFacts(f, segment);
    if segment == next {
      assert f.log[p.base..p.index] == [];
      NoBytes();
    } else {
      assert segment + 1 < |f.bases|;
      SegmentFacts(f, next);
      AheadIsLines(f, segment, p.base, p.position, p.buffer[p.offset..], p.index);
      assert f.log[p.index..EndOf(f, segment)] == [];
      NoBytes();
    }
  }

  lemma {:induction false} StuckForever(f: Files, sizes: nat -> nat, segment: nat, p: Place, n: nat)
    requires Sound(f) && PlacedAt(f, segment, p) && Stuck(f, p.index)
    ensures Looped(f, sizes, p, n) == None
    decreases n
  {
    hide Sound, Placed, Newline, Turned;
    var next := StuckTurns(f, sizes(n), segment, p);
    if n > 0 {
      StuckForever(f, sizes, next, Place(p.index, 0, "", 0, p.index), n - 1);
    }
  }

  /** A pass that opens the same segment again is one at the empty open segment. */
  lemma OpensItself(f: Files, segment: nat, p: Place)
    requires Sound(f) && PlacedAt(f, segment, p) && p.base == p.index && p.index in f.present
    requires p.offset == |p.buffer| && p.position == |f.contents[p.base]|
    ensures Stuck(f, p.index)
  {
    hide Bytes;
    SegmentFacts(f, segment);
    assert f.log[p.base..p.index] == [];
    NoBytes();
    assert f.contents[p.base][..p.position] == f.contents[p.base];
    if p.index < EndOf(f, segment) {
      BytesHead(f.log[p.index..EndOf(f, segment)]);
    }
  }

  /** The unread bytes bound the passes, in this segment and in the one that may start at the index. */
  ghost function PassesLeft(f: Files, segment: nat, p: Place): nat
    requires PlacedAt(f, segment, p)
  {
    |f.contents[p.base]| - p.position
      + (if p.base != p.index && p.index in f.contents then |f.contents[p.index]| + 1 else 0)
  }

  /** Everywhere else the loop ends. */
  lemma {:induction false} LoopEnds(f: Files, sizes: nat -> nat, segment: nat, p: Place, n: nat)
    requires Sound(f) && PlacedAt(f, segment, p) && !Stuck(f, p.index)
    requires n >= PassesLeft(f, segment, p)
    ensures Looped(f, sizes, p, n).Some?
    decreases n
  {
    hide Sound, Bytes, Newline;
    var turn := Turned(f, f, sizes(n), p);
    if turn.Again? {
      var next := turn.next;
      if next.position == 0 {
        if p.base == p.index {
          OpensItself(f, segment, p);
        }
        var begins := Beginning(f, p.index);
        LoopEnds(f, sizes, begins, next, n - 1);
      } else {
        ReadMore(f.contents[p.base], p.position, next.position - p.position, Bytes(f.log[p.base..p.index]), p.buffer,
                 p.offset);
        LoopEnds(f, sizes, segment, next, n - 1);
      }
    }
  }

  /** A fresh stream is such a state: its one segment is empty, and a reader at message 0 never returns. */
  lemma {:induction false} FreshStreamSticks(sizes: nat -> nat, n: nat)
    ensures var f, p := Files([], [0], map[0 := ""], {0}), Place(0, 0, "", 0, 0);
            Sound(f) && PlacedAt(f, 0, p) && Looped(f, sizes, p, n) == None
  {
    var f, p := Files([], [0], map[0 := ""], {0}), Place(0, 0, "", 0, 0);
    NoBytes();
    StuckForever(f, sizes, 0, p, n);
  }

  /** Over unchanging files `next` returns if and only if a committed line is ahead, or the open segment does not start
      at the reader's index, or some byte follows the committed lines there. */
  lemma ReturnsExactly(f: Files, sizes: nat -> nat, segment: nat, p: Place)
    requires Sound(f) && PlacedAt(f, segment, p)
    ensures (exists n: nat :: Looped(f, sizes, p, n).Some?) <==> !Stuck(f, p.index)
  {
    hide Sound, Placed, Newline, Turned, Looped;
    if Stuck(f, p.index) {
      forall n: nat
        ensures Looped(f, sizes, p, n).None?
      {
        StuckForever(f, sizes, segment, p, n);
      }
    } else {
      var n: nat := PassesLeft(f, segment, p);
      LoopEnds(f, sizes, segment, p, n);
      assert Looped(f, sizes, p, n).Some?;
    }
  }

  /** A pass with a committed line ahead, over files that may change meanwhile: it takes that line, or comes nearer
      to it, or finds that its file is gone. */
  lemma TurnAhead(f: Files, g: Files, h: Files, size: nat, segment: nat, p: Place)
    requires Sound(f) && Sound(g) && Sound(h) && Later(f, g) && Later(g, h) && PlacedAt(f, segment, p)
             && p.index < |f.log|
    ensures match Turned(g, h, size, p)
            case Line(line) => line == f.log[p.index]
            case Nothing => p.offset == |p.buffer| && p.index in h.bases && p.index !in h.present
            case Again(next) =>
              && next.index == p.index && p.index < |g.log|
              && if next.position > 0
                 then AtEnd(g, segment, p.index) == AtEnd(f, segment, p.index)
                      && |p.buffer| - p.offset < |next.buffer| - next.offset
                      && |p.buffer| - p.offset <= |f.log[p.index]|
                 else AtEnd(f, segment, p.index) == 1
  {
    hide Sound, Later, Bytes, Newline, Placed;
    Whereabouts(f, segment, p.base, p.position, p.buffer, p.offset, p.index);
    AtEndStays(f, g, segment, p.base, p.position, p.buffer[p.offset..], p.index);
    StillPlaced(f, g, segment, p.base, p.position, p.buffer[p.offset..], p.index);
    Whereabouts(g, segment, p.base, p.position, p.buffer, p.offset, p.index);
    if AtEnd(g, segment, p.index) == 1 {
      EndIsBoundary(g, h, segment, p.index);
    }
  }

  lemma InLog(f: Files, segment: nat, base: nat, position: nat, ahead: string, index: nat)
    requires Placed(f, segment, base, position, ahead, index)
    ensures index <= |f.log|
  {
  }

  function Unread(f: Files, base: nat, position: nat): nat {
    if base in f.contents && position <= |f.contents[base]| then |f.contents[base]| - position else 0
  }

  /** No byte follows the committed lines. */
  ghost predicate Quiet(f: Files)
    requires f.bases != []
  {
    var last := f.bases[|f.bases| - 1];
    last <= |f.log| && last in f.contents && f.contents[last] == Bytes(f.log[last..])
  }

  lemma QuietHead(f: Files, segment: nat, p: Place)
    requires Sound(f) && PlacedAt(f, segment, p) && p.index == |f.log| && Quiet(f)
    ensures p.offset == |p.buffer|
  {
    hide Bytes, ValidLines;
    SegmentFacts(f, segment);
    var end := EndOf(f, segment);
    assert f.log[p.base..p.index] == f.log[p.base..end];
    assert f.log[p.base..] == f.log[p.base..|f.log|];
    assert f.contents[p.base] == Bytes(f.log[p.base..end]);
    assert |f.contents[p.base][..p.position]| == |f.contents[p.base]| + |p.buffer[p.offset..]|;
  }

  /** A pass at the head of unchanging files. */
  lemma TurnAtHead(f: Files, size: nat, segment: nat, p: Place)
    requires Sound(f) && PlacedAt(f, segment, p) && !Stuck(f, p.index) && p.index == |f.log|
    ensures match Turned(f, f, size, p)
            case Line(_) => !Quiet(f)
            case Nothing => true
            case Again(next) =>
              && next.index == p.index
              && if next.position > 0 then next.base == p.base
                && Unread(f, next.base, next.position) < Unread(f, p.base, p.position)
                 else next.base == p.index && p.base != p.index
  {
    hide Bytes, Newline, ValidLines, HoldsLines;
    if Quiet(f) {
      QuietHead(f, segment, p);
    }
    if Turned(f, f, size, p).Again? && Turned(f, f, size, p).next.position == 0 && p.base == p.index {
      OpensItself(f, segment, p);
    }
  }

  class JournalReader {
    const world: nat -> Files     // the journal at each of the reader's system calls
    const sizes: nat -> nat       // how much each read returns
    var now: nat
    var base: nat
    var position: nat
    var buffer: string
    var offset: nat
    var index: nat
    ghost var segment: nat

    ghost predicate Valid()
      reads this
    {
      Producing(world) && offset <= |buffer| && Placed(world(now), segment, base, position, buffer[offset..], index)
    }

    constructor (world: nat -> Files, sizes: nat -> nat)
      ensures this.world == world && now == 0
    {
      this.world, this.sizes, now := world, sizes, 0;
      base, position, buffer, offset, index, segment := 0, 0, "", 0, 0, 0;
    }

    /** Opens a listed segment at its first byte; false when it is not there. */
    method Open(wanted: nat) returns (there: bool)
      requires Producing(world)
      modifies this
      ensures now == old(now) + 1
      ensures there <==> wanted in world(now).present
      ensures there ==> Valid() && index == base == wanted && position == 0 && buffer == "" && offset == 0
      ensures old(Valid()) ==> Valid()
      ensures !there ==> base == old(base) && position == old(position) && buffer == old(buffer)
                           && offset == old(offset) && index == old(index) && segment == old(segment)
    {
      hide Bytes, Later, Sound, Placed, Producing;
      Clock(world, now, now + 1);
      now := now + 1;
      var f := world(now);
      if wanted !in f.present {
        if old(Valid()) {
          StillPlaced(world(now - 1), f, segment, base, position, buffer[offset..], index);
        }
        return false;
      }
      base, position, buffer, offset, index := wanted, 0, "", 0, wanted;
      segment := Beginning(f, wanted);
      assert buffer[offset..] == "";
      return true;
    }

    /** Reads some of the bytes now in the file; none at its end. */
    method Read() returns (count: nat)
      requires Valid()
      modifies this`now, this`position, this`buffer
      ensures Valid() && now == old(now) + 1 && |buffer| == |old(buffer)| + count && position == old(position) + count
      ensures count == 0 <==> old(position) == |world(now).contents[base]|
      ensures base in world(now).contents
      ensures var content := world(now).contents[base];
              && position == (if |content| - old(position) < ChunkSize(sizes(now)) then |content|
                              else old(position) + ChunkSize(sizes(now)))
              && buffer == old(buffer) + content[old(position)..position]
    {
      hide Bytes, Sound, Later, Producing;
      Clock(world, now, now + 1);
      StillPlaced(world(now), world(now + 1), segment, base, position, buffer[offset..], index);
      now := now + 1;
      var content := world(now).contents[base];
      var wanted := ChunkSize(sizes(now));
      count := if |content| - position < wanted then |content| - position else wanted;
      ReadMore(content, position, count, Bytes(world(now).log[base..index]), buffer, offset);
      buffer := buffer + content[position..position + count];
      position := position + count;
    }

    function Here(): Place
      reads this
    {
      Place(base, position, buffer, offset, index)
    }

    /** Takes the buffered line that ends at `newline`, and drops what has been taken once it is long. */
    method TakeLine(newline: nat) returns (line: string)
      requires Valid() && newline == Newline(buffer, offset) < |buffer|
      modifies this`buffer, this`offset, this`index
      ensures line == old(buffer)[old(offset)..newline] && index == old(index) + 1
      ensures old(index) < |world(now).log| ==> Valid()
    {
      hide Bytes, Placed, Sound, Later, Newline, Producing;
      line := buffer[offset..newline];
      if index < |world(now).log| {
        Clock(world, now, now);
        Whereabouts(world(now), segment, base, position, buffer, offset, index);
        Stepped(world(now), segment, base, position, buffer[offset..], index);
        assert buffer[offset..][|line| + 1..] == buffer[newline + 1..];
      }
      offset, index := newline + 1, index + 1;
      if offset > COMPACT_AT {
        buffer, offset := buffer[offset..], 0;
        assert buffer[0..] == buffer;
      }
    }

    /** One pass of the loop: a buffered line, more bytes, the next segment, or nothing. */
    method Pass() returns (turn: Turn)
      requires Valid()
      modifies this
      ensures turn == Turned(world(old(now) + 1), world(old(now) + 2), sizes(old(now) + 1), old(Here()))
      ensures match turn
              case Line(_) => now == old(now) && index == old(index) + 1
              case Nothing => Valid() && Here() == old(Here()) && old(now) < now <= old(now) + 2
              case Again(next) => Valid() && Here() == next && old(now) < now <= old(now) + 2
      ensures turn.Line? && old(index) < |world(now).log| ==> Valid()
      ensures turn.Nothing? && old(offset) == |old(buffer)| ==> now == old(now) + 2
      ensures turn.Again? ==>
                if position > 0 then now == old(now) + 1 && segment == old(segment)
                else now == old(now) + 2 && index == base
    {
      hide Bytes, Placed, Sound, Later, Newline, Producing;
      var newline := Newline(buffer, offset);
      if newline < |buffer| {
        var taken := TakeLine(newline);
        return Line(taken);
      }
      var count := Read();
      if count > 0 {
        return Again(Here());
      }
      assert buffer == old(buffer);
      if offset == |buffer| {
        var there := Open(index);
        if there {
          return Again(Here());
        }
      }
      return Nothing;
    }

    /** No file changes from here on. */
    ghost predicate Still()
      reads this
    {
      forall t: nat :: t >= now ==> world(t) == world(now)
    }

    /** The next line, across reads, buffer compaction and segment boundaries. With a committed line ahead it is that
        line, and none only when its file has expired. At the head of files that stay as they are it ends as well,
        unless the empty open segment starts here, and finds nothing unless uncommitted bytes follow. */
    method Next() returns (line: Option<string>)
      requires Valid() && (index < |world(now).log| || (Still() && !Stuck(world(now), index)))
      modifies this
      ensures now >= old(now)
      ensures line.Some? ==> index == old(index) + 1
      ensures line.None? ==> Valid() && index == old(index)
      ensures old(index) >= |world(old(now)).log| && world(old(now)).bases != [] && Quiet(world(old(now))) ==>
              line.None?
      ensures old(index) < |world(old(now)).log| ==>
                && Valid()
                && (line.Some? ==> line.value == world(old(now)).log[old(index)])
                && (line.None? ==> index in world(now).bases && index !in world(now).present)
    {
      hide Bytes, Placed, Sound, Later, Newline, Producing, AtEnd, EndOf, Turned, Stuck;
      ghost var start, head := world(now), index == |world(now).log|;
      InLog(start, segment, base, position, buffer[offset..], index);
      while true
        invariant Valid() && now >= old(now) && index == old(index)
        invariant !head ==> index < |world(now).log| && world(now).log[index] == start.log[index]
        invariant head ==> Still() && world(now) == start && !Stuck(start, index) && index == |start.log|
        decreases if head then (if base == index then 0 else 1) else AtEnd(world(now), segment, index),
                  if head then Unread(start, base, position) else |start.log[index]| + 1 - (|buffer| - offset)
      {
        Clock(world, now, now + 1);
        Clock(world, now + 1, now + 2);
        if head {
          TurnAtHead(start, sizes(now + 1), segment, Here());
        } else {
          TurnAhead(world(now), world(now + 1), world(now + 2), sizes(now + 1), segment, Here());
        }
        var turn := Pass();
        match turn
        case Line(taken) => return Some(taken);
        case Nothing => return None;
        case Again(_) =>
          if !head && position == 0 {
            FreshSegment(world(now), segment, base, position, buffer[offset..]);
          }
      }
    }

    /** Positions before message `wanted`; false only when some segment at or before it is no longer listed. */
    method Seek(wanted: nat) returns (found: bool)
      requires Producing(world) && wanted <= |world(now).log|
      modifies this
      ensures now >= old(now) && (found ==> Valid() && index == wanted)
      ensures !found ==> exists t: nat, b: nat :: old(now) < t <= now && Expired(world(t), b) && b <= wanted
    {
      hide Bytes, Placed, Sound, Later, Newline, Producing, AtEnd, EndOf;
      var attempt := 0;
      while attempt < 2
        invariant now >= old(now) && (attempt > 0 ==>
                  exists t: nat, b: nat :: old(now) < t <= now && Expired(world(t), b) && b <= wanted)
      {
        now := now + 1;
        var listed := world(now).present;
        var eligible := set b | b in listed && b <= wanted;
        Listing(world, old(now), now, wanted);
        if eligible == {} {
          assert 0 !in eligible;
          assert Expired(world(now), 0);
          return false;
        }
        var chosen := Greatest(eligible);
        Listed(world, now, now + 1, chosen);
        var there := Open(chosen);
        if !there {
          assert Expired(world(now), chosen);
          attempt := attempt + 1;
          continue;
        }
        while index < wanted
          invariant Valid() && index <= wanted && now > old(now)
        {
          Listing(world, old(now), now, wanted);
          var skipped := Next();
          if skipped.None? {
            assert Expired(world(now), index);
            return false;
          }
        }
        return true;
      }
      return false;
    }
  }

  /** A segment that was begun and has been removed. */
  ghost predicate Expired(f: Files, base: nat) { base in f.bases && base !in f.present }

  lemma Listing(world: nat -> Files, s: nat, t: nat, wanted: nat)
    requires Producing(world) && s <= t && wanted <= |world(s).log|
    ensures wanted <= |world(t).log| && 0 in world(t).bases
  {
    Clock(world, s, t);
    assert world(t).bases[0] == 0;
  }

  lemma Listed(world: nat -> Files, s: nat, t: nat, base: nat)
    requires Producing(world) && s <= t && base in world(s).present
    ensures base in world(t).bases
  {
    Clock(world, s, t);
    var i :| 0 <= i < |world(s).bases| && world(s).bases[i] == base;
    assert world(t).bases[i] == base;
  }

  /** The committed prefix as one document, refused when it exceeds the limit, or when some segment of it has expired.
      */
  method SnapshotPrefix(world: nat -> Files, sizes: nat -> nat, published: nat, limit: nat)
    returns (r: Result<Option<string>>)
    requires Producing(world) && published <= |world(0).log|
    ensures match r
            case Ok(Some(body)) => body == Bytes(world(0).log[..published]) && |body| <= limit
            case Ok(None) => |Bytes(world(0).log[..published])| > limit
            case Err(code) => code == 20 && exists t: nat, b: nat :: b <= published && Expired(world(t), b)
  {
    hide Placed, Sound, Later, Newline, Producing, AtEnd, EndOf, Bytes;
    ghost var log := world(0).log;
    var reader := new JournalReader(world, sizes);
    var found := reader.Seek(0);
    if !found {
      return Err(20);
    }
    var body := "";
    NoBytes();
    assert log[..0] == [];
    while reader.index < published
      invariant reader.Valid() && reader.world == world && reader.index <= published
      invariant body == Bytes(log[..reader.index]) && |body| <= limit
    {
      Clock(world, 0, reader.now);
      SamePrefixOfLog(world, 0, reader.now);
      PrefixBytes(log, reader.index, published);
      var line := reader.Next();
      if line.None? {
        assert Expired(world(reader.now), reader.index);
        return Err(20);
      }
      if |line.value| + 1 > limit - |body| {
        return Ok(None);
      }
      body := body + line.value + "\n";
    }
    return Ok(Some(body));
  }

  lemma SamePrefixOfLog(world: nat -> Files, s: nat, t: nat)
    requires Producing(world) && s <= t
    ensures world(s).log <= world(t).log
  {
  }

  lemma PrefixBytes(log: seq<string>, index: nat, end: nat)
    requires index < end <= |log|
    ensures Bytes(log[..index + 1]) == Bytes(log[..index]) + log[index] + "\n"
    ensures |Bytes(log[..index])| + |log[index]| + 1 <= |Bytes(log[..end])|
  {
    assert log[..index + 1][..index] == log[..index];
    assert log[..end] == log[..index + 1] + log[index + 1..end];
    BytesConcat(log[..index + 1], log[index + 1..end]);
  }
}
