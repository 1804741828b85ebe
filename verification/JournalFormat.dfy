/** The journal's byte format, its replay, and the recovery decision as a function of the disk alone. */
module JournalFormat {
  import opened Feed
  import opened Ordered

  /** The unmodelled text layer: message parsing and SHA-256 are arbitrary functions. */
  datatype Codec = Codec(parse: string -> Option<Message>, sha: string -> string, mode: Mode)

  datatype Cursor = Cursor(epoch: string, start: int, predecessor: Option<Trade>, proofs: seq<Bar>, segment: nat,
                           v: Verified)
  datatype Checkpoint = Checkpoint(epoch: string, start: int, predecessor: Option<Trade>, v: Verified)
  datatype Segment = Segment(base: nat, bytes: nat, lastId: nat, cut: int, lastTickTs: int)

  /** What survives a crash: the cursor file, the segment and checkpoint files, and temporaries of atomic writes. */
  datatype Disk = Disk(cursor: Option<Cursor>, segments: map<nat, string>, checkpoints: map<nat, Checkpoint>,
                       temporaries: set<nat>)

  // ---------- Lines ----------

  predicate ValidLine(line: string) { |line| <= 4095 && '\n' !in line }

  predicate ValidLines(lines: seq<string>) { forall i :: 0 <= i < |lines| ==> ValidLine(lines[i]) }

  function Bytes(lines: seq<string>): string {
    if lines == [] then "" else Bytes(lines[..|lines| - 1]) + lines[|lines| - 1] + "\n"
  }

  function Newline(content: string, from: nat): (p: nat)
    requires from <= |content|
    ensures from <= p <= |content|
    ensures forall i :: from <= i < p ==> content[i] != '\n'
    ensures p < |content| ==> content[p] == '\n'
    decreases |content| - from
  {
    if from == |content| || content[from] == '\n' then from else Newline(content, from + 1)
  }

  // ---------- Replay ----------

  /** Verifies one line and extends the hash chain over it. */
  function Step(k: Codec, predecessor: Option<Trade>, v: Verified, line: string): Result<Verified> {
    match k.parse(line)
    case None => Err(21)
    case Some(m) =>
      var n :- Advance(v, predecessor, m, k.mode);
      Ok(n.(index := v.index + 1, bytes := v.bytes + |line| + 1,
            prefixHash := k.sha(v.prefixHash + line + "\n"), overlapHash := k.sha(line + "\n")))
  }

  function Replay(k: Codec, predecessor: Option<Trade>, v: Verified, lines: seq<string>): Result<Verified> {
    if lines == [] then Ok(v)
    else
      var n :- Replay(k, predecessor, v, lines[..|lines| - 1]);
      Step(k, predecessor, n, lines[|lines| - 1])
  }

  /** Replays the complete lines of the first `limit` bytes from `offset`; a cut line is a broken partition. */
  function ReplayBytes(k: Codec, predecessor: Option<Trade>, v: Verified, content: string, offset: nat,
                       limit: nat): Result<Verified>
    requires offset <= |content|
    decreases |content| - offset
  {
    if offset >= limit then Ok(v)
    else
      var p := Newline(content, offset);
      if p == |content| || p - offset > 4095 || p + 1 > limit then Err(21)
      else
        var n :- Step(k, predecessor, v, content[offset..p]);
        ReplayBytes(k, predecessor, n, content, p + 1, limit)
  }

  lemma {:induction false} BytesConcat(a: seq<string>, b: seq<string>)
    ensures Bytes(a + b) == Bytes(a) + Bytes(b)
  {
    if b == [] {
      assert a + b == a;
    } else {
      var front := b[..|b| - 1];
      assert (a + b)[..|a + b| - 1] == a + front;
      BytesConcat(a, front);
      assert Bytes(a + b) == Bytes(a + front) + b[|b| - 1] + "\n";
      assert Bytes(a) + Bytes(b) == Bytes(a) + (Bytes(front) + b[|b| - 1] + "\n");
    }
  }

  lemma {:induction false} ReplayConcat(k: Codec, predecessor: Option<Trade>, v: Verified, a: seq<string>,
                                        b: seq<string>)
    ensures Replay(k, predecessor, v, a + b)
         == (match Replay(k, predecessor, v, a) case Ok(n) => Replay(k, predecessor, n, b) case Err(e) => Err(e))
  {
    if b == [] {
      assert a + b == a;
    } else {
      assert (a + b)[..|a + b| - 1] == a + b[..|b| - 1];
      ReplayConcat(k, predecessor, v, a, b[..|b| - 1]);
    }
  }

  lemma ReplayPrefix(k: Codec, predecessor: Option<Trade>, v: Verified, lines: seq<string>, n: nat)
    requires Replay(k, predecessor, v, lines).Ok? && n <= |lines|
    ensures Replay(k, predecessor, v, lines[..n]).Ok?
    ensures Replay(k, predecessor, v, lines)
         == Replay(k, predecessor, Replay(k, predecessor, v, lines[..n]).value, lines[n..])
  {
    assert lines == lines[..n] + lines[n..];
    ReplayConcat(k, predecessor, v, lines[..n], lines[n..]);
  }

  /** Replay counts lines and bytes. */
  lemma {:induction false} ReplayCounts(k: Codec, predecessor: Option<Trade>, v: Verified, lines: seq<string>)
    requires Replay(k, predecessor, v, lines).Ok?
    ensures Replay(k, predecessor, v, lines).value.index == v.index + |lines|
    ensures Replay(k, predecessor, v, lines).value.bytes == v.bytes + |Bytes(lines)|
  {
    if lines != [] {
      ReplayCounts(k, predecessor, v, lines[..|lines| - 1]);
    }
  }

  lemma BytesHead(lines: seq<string>)
    requires lines != []
    ensures Bytes(lines) == lines[0] + "\n" + Bytes(lines[1..])
  {
    assert lines == [lines[0]] + lines[1..];
    assert [lines[0]][..0] == [];
    assert Bytes([lines[0]]) == lines[0] + "\n";
    BytesConcat([lines[0]], lines[1..]);
  }

  lemma ReplayHead(k: Codec, predecessor: Option<Trade>, v: Verified, lines: seq<string>)
    requires lines != []
    ensures Replay(k, predecessor, v, lines)
         == (match Step(k, predecessor, v, lines[0])
             case Ok(n) => Replay(k, predecessor, n, lines[1..])
             case Err(e) => Err(e))
  {
    assert lines == [lines[0]] + lines[1..];
    assert [lines[0]][..0] == [];
    assert Replay(k, predecessor, v, [lines[0]]) == Step(k, predecessor, v, lines[0]);
    ReplayConcat(k, predecessor, v, [lines[0]], lines[1..]);
  }

  lemma NewlineAt(content: string, offset: nat, line: string)
    requires ValidLine(line) && offset + |line| < |content|
    requires content[offset..offset + |line|] == line && content[offset + |line|] == '\n'
    ensures Newline(content, offset) == offset + |line|
  {
    forall i | offset <= i < offset + |line|
      ensures content[i] != '\n'
    {
      assert content[i] == line[i - offset];
    }
  }

  lemma ReplayBytesStep(k: Codec, predecessor: Option<Trade>, v: Verified, content: string, offset: nat, limit: nat,
                        line: string)
    requires ValidLine(line) && offset + |line| < limit <= |content|
    requires content[offset..offset + |line|] == line && content[offset + |line|] == '\n'
    ensures ReplayBytes(k, predecessor, v, content, offset, limit)
         == (match Step(k, predecessor, v, line)
             case Ok(n) => ReplayBytes(k, predecessor, n, content, offset + |line| + 1, limit)
             case Err(e) => Err(e))
  {
    NewlineAt(content, offset, line);
  }

  lemma BytesSplit(content: string, offset: nat, lines: seq<string>)
    requires lines != [] && offset + |Bytes(lines)| <= |content|
    requires content[offset..offset + |Bytes(lines)|] == Bytes(lines)
    ensures var next := offset + |lines[0]| + 1;
            && next + |Bytes(lines[1..])| == offset + |Bytes(lines)|
            && content[offset..next - 1] == lines[0] && content[next - 1] == '\n'
            && content[next..next + |Bytes(lines[1..])|] == Bytes(lines[1..])
  {
    hide Bytes;
    BytesHead(lines);
    var line, rest := lines[0], Bytes(lines[1..]);
    var total := |Bytes(lines)|;
    HeadAndTail(line, rest);
    SliceOfSlice(content, offset, offset + total, 0, |line|);
    SliceOfSlice(content, offset, offset + total, |line| + 1, total);
    assert content[offset..offset + total][|line|] == content[offset + |line|];
  }

  lemma HeadAndTail(line: string, rest: string)
    ensures var read := line + "\n" + rest;
            read[0..|line|] == line && read[|line|] == '\n' && read[|line| + 1..|read|] == rest
  {
  }

  lemma SliceOfSlice<T>(s: seq<T>, lo: nat, hi: nat, i: nat, j: nat)
    requires lo <= hi <= |s| && i <= j <= hi - lo
    ensures s[lo..hi][i..j] == s[lo + i..lo + j]
  {
    var a, b := s[lo..hi][i..j], s[lo + i..lo + j];
    assert forall k :: 0 <= k < |a| ==> a[k] == s[lo + i + k] == b[k];
  }

  lemma NoBytes()
    ensures Bytes([]) == ""
  {
  }

  /** Reading the bytes of whole lines replays exactly those lines, whatever surrounds them. */
  lemma {:induction false} ReplayBytesOfLines(k: Codec, predecessor: Option<Trade>, v: Verified, content: string,
                                              offset: nat, lines: seq<string>)
    requires ValidLines(lines)
    requires offset + |Bytes(lines)| <= |content| && content[offset..offset + |Bytes(lines)|] == Bytes(lines)
    ensures ReplayBytes(k, predecessor, v, content, offset, offset + |Bytes(lines)|) == Replay(k, predecessor, v, lines)
    decreases |lines|
  {
    hide Bytes, Step;
    if lines == [] {
      NoBytes();
    } else {
      BytesSplit(content, offset, lines);
      ReplayHead(k, predecessor, v, lines);
      ReplayBytesStep(k, predecessor, v, content, offset, offset + |Bytes(lines)|, lines[0]);
      if Step(k, predecessor, v, lines[0]).Ok? {
        ReplayBytesOfLines(k, predecessor, Step(k, predecessor, v, lines[0]).value, content, offset + |lines[0]| + 1,
                           lines[1..]);
      }
    }
  }

  // ---------- The recovery decision ----------

  predicate ValidCursor(c: Cursor) {
    && 0 <= c.start <= c.v.cut && c.start % MINUTE == 0 && c.v.cut % MINUTE == 0
    && c.segment <= c.v.index
    && |c.proofs| <= 32 && (forall i :: 0 <= i < |c.proofs| ==> c.proofs[i].Valid())
  }

  function Ascending(s: set<nat>): seq<nat> {
    if s == {} then [] else [Least(s)] + Ascending(s - {Least(s)})
  }

  /** The listing is the one ascending order of its elements. */
  lemma {:induction false} AscendingIsUnique(s: set<nat>, order: seq<nat>)
    requires forall i, j :: 0 <= i < j < |order| ==> order[i] < order[j]
    requires forall x :: x in s <==> x in order
    ensures Ascending(s) == order
  {
    if order == [] {
      assert s == {};
    } else {
      assert order[0] in s;
      assert Least(s) == order[0];
      assert forall x :: x in s - {order[0]} <==> x in order[1..];
      AscendingIsUnique(s - {order[0]}, order[1..]);
    }
  }

  /** A file recovery refuses: data after the open segment, a hole, or a segment without its checkpoint. */
  predicate Refused(d: Disk, c: Cursor, base: nat) {
    if base > c.segment then
      base != c.v.index || (base in d.segments && d.segments[base] != "")
    else if base !in d.segments then
      base >= Least(d.segments.Keys + {c.segment})
    else
      base !in d.checkpoints
  }

  function Retained(d: Disk, c: Cursor): set<nat> {
    set base | base in d.segments && base <= c.segment
  }

  /** Replays the retained segments against their checkpoints and the cursor; the table has already checked the `first`
      one's. */
  function Rebuild(k: Codec, d: Disk, c: Cursor, v: Verified, bases: seq<nat>, first: bool): Result<seq<Segment>>
    requires forall base :: base in bases ==> base in d.segments && base in d.checkpoints
    decreases |bases|
  {
    if bases == [] then
      if v == c.v then Ok([]) else Err(21)
    else if !first && (d.checkpoints[bases[0]].v.index != bases[0] || d.checkpoints[bases[0]].v != v) then Err(21)
    else
      var n :- ReplaySegment(k, c, v, d.segments[bases[0]], |bases| == 1);
      var rest :- Rebuild(k, d, c, n, bases[1..], false);
      Ok([Segment(bases[0], v.bytes, v.lastId, v.cut, v.lastTickTs)] + rest)
  }

  /** A sealed segment is replayed to its end, the open one to the cursor. */
  function ReplaySegment(k: Codec, c: Cursor, v: Verified, content: string, open: bool): Result<Verified> {
    if open && c.v.bytes < v.bytes then Err(21)
    else
      var limit := if open then c.v.bytes - v.bytes else |content|;
      if |content| < limit then Err(21) else ReplayBytes(k, c.predecessor, v, content, 0, limit)
  }

  datatype Recovered = Recovered(cursor: Cursor, segments: seq<Segment>)

  /** The segment table of the retained files, from the first checkpoint to the cursor. */
  function Table(k: Codec, d: Disk, c: Cursor, bases: seq<nat>): Result<seq<Segment>>
    requires forall base :: base in bases ==> base in d.segments && base in d.checkpoints
  {
    if bases == [] || bases[|bases| - 1] != c.segment then Err(21)
    else
      var first := d.checkpoints[bases[0]];
      if first.v.index != bases[0] || first.epoch != c.epoch || first.start != c.start then Err(21)
      else if first.predecessor.Some? && first.predecessor != c.predecessor then Err(21)
      else Rebuild(k, d, c, first.v, bases, true)
  }

  predicate AnyRefused(d: Disk, c: Cursor) {
    exists base :: base in d.segments.Keys + d.checkpoints.Keys && Refused(d, c, base)
  }

  /** What resuming decides from a disk, before it changes the open segment. */
  function Recovery(k: Codec, d: Disk): Result<Recovered> {
    if d.cursor.None? then Err(22)
    else
      var c := d.cursor.value;
      if !ValidCursor(c) then Err(21)
      else if AnyRefused(d, c) then Err(21)
      else
        AcceptedFiles(d, c);
        var segments :- Table(k, d, c, Ascending(Retained(d, c)));
        Ok(Recovered(c, segments))
  }

  lemma AcceptedFiles(d: Disk, c: Cursor)
    requires !AnyRefused(d, c)
    ensures forall base :: base in Ascending(Retained(d, c)) ==> base in d.segments && base in d.checkpoints
  {
    AscendingMembers(Retained(d, c));
    forall base | base in Retained(d, c)
      ensures base in d.checkpoints
    {
      assert base in d.segments.Keys + d.checkpoints.Keys && !Refused(d, c, base);
    }
  }

  lemma {:induction false} AscendingMembers(s: set<nat>)
    ensures forall x :: x in s <==> x in Ascending(s)
    ensures forall i, j :: 0 <= i < j < |Ascending(s)| ==> Ascending(s)[i] < Ascending(s)[j]
  {
    if s != {} {
      var rest := s - {Least(s)};
      AscendingMembers(rest);
      var least, order := Least(s), Ascending(rest);
      assert Ascending(s) == [least] + order;
      assert forall x :: x in order ==> x in rest && least < x;
      assert forall x :: x in [least] + order <==> x == least || x in order;
      assert forall x :: x in s <==> x == least || x in rest;
      forall i, j | 0 <= i < j < |Ascending(s)|
        ensures Ascending(s)[i] < Ascending(s)[j]
      {
        assert Ascending(s)[j] == order[j - 1] && order[j - 1] in order;
        assert i > 0 ==> Ascending(s)[i] == order[i - 1];
      }
    }
  }

  // ---------- What every crash state looks like ----------

  function Genesis(k: Codec, start: int): Verified {
    Verified(0, 0, k.sha(""), k.sha(""), start, 0, -1, -1)
  }

  /** The verified state after the first `n` lines of the stream. */
  function StateAt(k: Codec, c: Cursor, log: seq<string>, n: nat): Result<Verified>
    requires n <= |log|
  {
    Replay(k, c.predecessor, Genesis(k, c.start), log[..n])
  }

  ghost predicate Boundaries(bases: seq<nat>, c: Cursor, size: nat) {
    && bases != [] && bases[|bases| - 1] == c.segment <= size
    && forall i, j :: 0 <= i < j < |bases| ==> bases[i] < bases[j]
  }

  function End(bases: seq<nat>, i: nat, size: nat): nat
    requires i < |bases|
  {
    if i + 1 < |bases| then bases[i + 1] else size
  }

  /** Segment `i` holds its part of the log, behind a checkpoint of the state it starts from. */
  ghost predicate Holds(k: Codec, d: Disk, c: Cursor, log: seq<string>, bases: seq<nat>, i: nat)
    requires i < |bases| && bases[i] <= End(bases, i, |log|) <= |log|
  {
    var base := bases[i];
    && base in d.segments && base in d.checkpoints
    && d.checkpoints[base].epoch == c.epoch && d.checkpoints[base].start == c.start
    && (d.checkpoints[base].predecessor.Some? ==> d.checkpoints[base].predecessor == c.predecessor)
    && StateAt(k, c, log, base) == Ok(d.checkpoints[base].v)
    && Bytes(log[base..End(bases, i, |log|)]) <= d.segments[base]
    && (i + 1 < |bases| ==> d.segments[base] == Bytes(log[base..bases[i + 1]]))
  }

  /** The retained segments hold the committed log from `bases[0]` to the cursor. */
  ghost predicate Content(k: Codec, d: Disk, c: Cursor, log: seq<string>, bases: seq<nat>) {
    && ValidLines(log)
    && Replay(k, c.predecessor, Genesis(k, c.start), log) == Ok(c.v)
    && Boundaries(bases, c, |log|)
    && forall i :: 0 <= i < |bases| ==> Holds(k, d, c, log, bases, i)
  }

  /** The disk holds the committed log from `bases[0]`, plus at most the leftovers of an interrupted step. */
  ghost predicate Recoverable(k: Codec, d: Disk, log: seq<string>, bases: seq<nat>) {
    && d.cursor.Some?
    && var c := d.cursor.value;
    && ValidCursor(c)
    && Content(k, d, c, log, bases)
    && (forall base :: base in d.segments ==> base in bases || (c.segment < base == |log| && d.segments[base] == ""))
    && (forall base :: base in d.checkpoints ==> base in bases || base < bases[0] || c.segment < base == |log|)
  }

  function SegmentOf(v: Verified): Segment {
    Segment(v.index, v.bytes, v.lastId, v.cut, v.lastTickTs)
  }

  /** The in-memory table describes exactly these boundaries of the log. */
  ghost predicate Describes(k: Codec, c: Cursor, log: seq<string>, bases: seq<nat>, segments: seq<Segment>) {
    && |segments| == |bases|
    && forall i :: 0 <= i < |bases| ==> bases[i] <= |log| && StateAt(k, c, log, bases[i]).Ok?
                                        && segments[i] == SegmentOf(StateAt(k, c, log, bases[i]).value)
  }

  /** From every crash state, recovery accepts the disk and rebuilds the last persisted cursor and its segments. */
  lemma RecoveryIsComplete(k: Codec, d: Disk, log: seq<string>, bases: seq<nat>)
    requires Recoverable(k, d, log, bases)
    ensures Recovery(k, d).Ok?
    ensures Recovery(k, d).value.cursor == d.cursor.value
    ensures Describes(k, d.cursor.value, log, bases, Recovery(k, d).value.segments)
  {
    hide Refused, Rebuild, Ascending, StateAt, Describes, Content;
    var c := d.cursor.value;
    forall base | base in d.segments.Keys + d.checkpoints.Keys
      ensures !Refused(d, c, base)
    {
      NothingRefused(k, d, log, bases, base);
    }
    RetainedAreBases(k, d, log, bases);
    AscendingIsUnique(Retained(d, c), bases);
    RebuildAll(k, d, c, log, bases);
  }

  lemma RebuildAll(k: Codec, d: Disk, c: Cursor, log: seq<string>, bases: seq<nat>)
    requires Content(k, d, c, log, bases)
    ensures forall base :: base in bases ==> base in d.segments && base in d.checkpoints
    ensures bases != [] && bases[|bases| - 1] == c.segment
    ensures var first := d.checkpoints[bases[0]];
            && first.v.index == bases[0] && first.epoch == c.epoch && first.start == c.start
            && (first.predecessor.Some? ==> first.predecessor == c.predecessor)
    ensures var r := Rebuild(k, d, c, d.checkpoints[bases[0]].v, bases, true);
            r.Ok? && Describes(k, c, log, bases, r.value)
  {
    ContentFiles(k, d, c, log, bases);
    assert Holds(k, d, c, log, bases, 0);
    NextState(k, c, log, bases[0], |log|);
    assert bases[0..] == bases;
    RebuildHolds(k, d, c, log, bases, d.checkpoints[bases[0]].v, 0);
  }

  lemma ContentFiles(k: Codec, d: Disk, c: Cursor, log: seq<string>, bases: seq<nat>)
    requires Content(k, d, c, log, bases)
    ensures forall base :: base in bases ==> base in d.segments && base in d.checkpoints
  {
    forall base | base in bases
      ensures base in d.segments && base in d.checkpoints
    {
      var i :| 0 <= i < |bases| && bases[i] == base;
      assert Holds(k, d, c, log, bases, i);
    }
  }

  lemma RetainedAreBases(k: Codec, d: Disk, log: seq<string>, bases: seq<nat>)
    requires Recoverable(k, d, log, bases)
    ensures forall base :: base in Retained(d, d.cursor.value) <==> base in bases
    ensures forall i, j :: 0 <= i < j < |bases| ==> bases[i] < bases[j]
  {
    var c := d.cursor.value;
    forall base | base in bases
      ensures base in Retained(d, c)
    {
      var i :| 0 <= i < |bases| && bases[i] == base;
      assert Holds(k, d, c, log, bases, i);
    }
  }

  lemma NothingRefused(k: Codec, d: Disk, log: seq<string>, bases: seq<nat>, base: nat)
    requires Recoverable(k, d, log, bases)
    requires base in d.segments.Keys + d.checkpoints.Keys
    ensures !Refused(d, d.cursor.value, base)
  {
    var c := d.cursor.value;
    ReplayCounts(k, c.predecessor, Genesis(k, c.start), log);
    if base in bases {
      var i :| 0 <= i < |bases| && bases[i] == base;
      assert Holds(k, d, c, log, bases, i);
    } else if base <= c.segment {
      assert base < bases[0];
      var least := Least(d.segments.Keys + {c.segment});
      assert least == c.segment || least in d.segments;
      assert least in bases || least > c.segment;
      assert bases[0] <= c.segment;
    }
  }

  /** The next boundary's state is the replay of one segment's lines. */
  lemma NextState(k: Codec, c: Cursor, log: seq<string>, from: nat, to: nat)
    requires from <= to <= |log|
    requires Replay(k, c.predecessor, Genesis(k, c.start), log).Ok?
    ensures StateAt(k, c, log, from).Ok? && StateAt(k, c, log, to).Ok?
    ensures var v, n := StateAt(k, c, log, from).value, StateAt(k, c, log, to).value;
            && Replay(k, c.predecessor, v, log[from..to]) == Ok(n)
            && v.index == from && n.index == to && n.bytes == v.bytes + |Bytes(log[from..to])|
  {
    var genesis := Genesis(k, c.start);
    ReplayPrefix(k, c.predecessor, genesis, log, to);
    assert log[..to][..from] == log[..from] && log[..to][from..] == log[from..to];
    ReplayPrefix(k, c.predecessor, genesis, log[..to], from);
    ReplayCounts(k, c.predecessor, genesis, log[..from]);
    ReplayCounts(k, c.predecessor, StateAt(k, c, log, from).value, log[from..to]);
  }

  lemma {:induction false} RebuildHolds(k: Codec, d: Disk, c: Cursor, log: seq<string>, bases: seq<nat>, v: Verified,
                                        i: nat)
    requires Content(k, d, c, log, bases) && i <= |bases|
    requires forall base :: base in bases ==> base in d.segments && base in d.checkpoints
    requires StateAt(k, c, log, if i < |bases| then bases[i] else |log|) == Ok(v)
    ensures var r := Rebuild(k, d, c, v, bases[i..], i == 0);
            r.Ok? && Describes(k, c, log, bases[i..], r.value)
    decreases |bases| - i
  {
    if i == |bases| {
      assert log[..|log|] == log;
    } else {
      var n := SegmentReplays(k, d, c, log, bases, v, i);
      assert bases[i..][1..] == bases[i + 1..];
      RebuildHolds(k, d, c, log, bases, n, i + 1);
    }
  }

  lemma ReplaySegmentOfLines(k: Codec, c: Cursor, v: Verified, content: string, lines: seq<string>, open: bool)
    requires ValidLines(lines) && Bytes(lines) <= content
    requires if open then c.v.bytes == v.bytes + |Bytes(lines)| else content == Bytes(lines)
    ensures ReplaySegment(k, c, v, content, open) == Replay(k, c.predecessor, v, lines)
  {
    assert content[0..0 + |Bytes(lines)|] == Bytes(lines);
    ReplayBytesOfLines(k, c.predecessor, v, content, 0, lines);
  }

  /** Replaying segment `i` from its boundary reaches the next boundary. */
  lemma SegmentReplays(k: Codec, d: Disk, c: Cursor, log: seq<string>, bases: seq<nat>, v: Verified, i: nat)
    returns (n: Verified)
    requires Content(k, d, c, log, bases) && i < |bases|
    requires StateAt(k, c, log, bases[i]) == Ok(v)
    ensures bases[i] in d.segments && bases[i] in d.checkpoints && d.checkpoints[bases[i]].v == v && v.index == bases[i]
    ensures ReplaySegment(k, c, v, d.segments[bases[i]], i + 1 == |bases|) == Ok(n)
    ensures StateAt(k, c, log, End(bases, i, |log|)) == Ok(n)
  {
    assert Holds(k, d, c, log, bases, i);
    var base, end := bases[i], End(bases, i, |log|);
    NextState(k, c, log, base, end);
    n := StateAt(k, c, log, end).value;
    assert i + 1 == |bases| ==> log[..end] == log && n == c.v;
    ReplaySegmentOfLines(k, c, v, d.segments[base], log[base..end], i + 1 == |bases|);
  }

  // ---------- Recovery accepts nothing but the committed bytes ----------

  /** `x` is the string hashed for some line of the chain over `lines` from `v`. */
  ghost predicate InChain(k: Codec, predecessor: Option<Trade>, v: Verified, lines: seq<string>, x: string) {
    exists n :: 0 <= n < |lines| && HashedAt(k, predecessor, v, lines, n, x)
  }

  ghost predicate HashedAt(k: Codec, predecessor: Option<Trade>, v: Verified, lines: seq<string>, n: nat, x: string)
    requires n < |lines|
  {
    var r := Replay(k, predecessor, v, lines[..n]);
    r.Ok? && x == r.value.prefixHash + lines[n] + "\n"
  }

  /** Two different strings with one digest: one hashed over the lines `a`, the other over the lines `b`. */
  ghost predicate Collide(k: Codec, predecessor: Option<Trade>, v: Verified, a: seq<string>, b: seq<string>, x: string,
                          y: string) {
    && x != y && k.sha(x) == k.sha(y)
    && InChain(k, predecessor, v, a, x) && InChain(k, predecessor, v, b, y)
  }

  /** The content holds whole lines of which one was hashed to a committed line's digest, from another string. */
  ghost predicate Forged(k: Codec, c: Cursor, v: Verified, committed: seq<string>, content: string) {
    exists read, x, y :: ValidLines(read) && Bytes(read) <= content
                         && Collide(k, c.predecessor, v, committed, read, x, y)
  }

  lemma CollideLater(k: Codec, predecessor: Option<Trade>, v: Verified, a: seq<string>, b: seq<string>, x: string,
                     y: string)
    requires a != [] && b != [] && Collide(k, predecessor, v, a[..|a| - 1], b[..|b| - 1], x, y)
    ensures Collide(k, predecessor, v, a, b, x, y)
  {
    InLongerChain(k, predecessor, v, a, x);
    InLongerChain(k, predecessor, v, b, y);
  }

  lemma InLongerChain(k: Codec, predecessor: Option<Trade>, v: Verified, lines: seq<string>, x: string)
    requires lines != [] && InChain(k, predecessor, v, lines[..|lines| - 1], x)
    ensures InChain(k, predecessor, v, lines, x)
  {
    var front := lines[..|lines| - 1];
    var n :| 0 <= n < |front| && HashedAt(k, predecessor, v, front, n, x);
    assert front[..n] == lines[..n];
    assert HashedAt(k, predecessor, v, lines, n, x);
  }

  ghost predicate DigestSized(sha: string -> string) {
    forall x :: |sha(x)| == 64
  }

  lemma LineBytes(content: string, offset: nat, p: nat, limit: nat, lines: seq<string>)
    requires offset <= p < limit <= |content| && content[p] == '\n'
    requires lines != [] && lines[0] == content[offset..p] && Bytes(lines[1..]) == content[p + 1..limit]
    ensures Bytes(lines) == content[offset..limit]
  {
    BytesHead(lines);
    assert content[offset..limit] == content[offset..p] + [content[p]] + content[p + 1..limit];
  }

  lemma NothingRead(k: Codec, predecessor: Option<Trade>, v: Verified)
    ensures Bytes([]) == "" && Replay(k, predecessor, v, []) == Ok(v)
  {
  }

  /** Accepted bytes are whole lines that replay to the accepted state. */
  lemma {:induction false} AcceptedLines(k: Codec, predecessor: Option<Trade>, v: Verified, content: string,
                                         offset: nat, limit: nat)
      returns (lines: seq<string>)
    requires offset <= limit <= |content|
    requires ReplayBytes(k, predecessor, v, content, offset, limit).Ok?
    ensures ValidLines(lines) && Bytes(lines) == content[offset..limit]
    ensures Replay(k, predecessor, v, lines) == ReplayBytes(k, predecessor, v, content, offset, limit)
    decreases limit - offset
  {
    hide Bytes, Step, Replay;
    if offset == limit {
      lines := [];
      NothingRead(k, predecessor, v);
    } else {
      var p := Newline(content, offset);
      var line := content[offset..p];
      var n := Step(k, predecessor, v, line).value;
      var rest := AcceptedLines(k, predecessor, n, content, p + 1, limit);
      lines := [line] + rest;
      assert lines[1..] == rest;
      ReplayHead(k, predecessor, v, lines);
      LineBytes(content, offset, p, limit, lines);
    }
  }

  lemma {:induction false} PrefixHashSized(k: Codec, predecessor: Option<Trade>, v: Verified, lines: seq<string>)
    requires DigestSized(k.sha) && |v.prefixHash| == 64 && Replay(k, predecessor, v, lines).Ok?
    ensures |Replay(k, predecessor, v, lines).value.prefixHash| == 64
  {
    if lines != [] {
      PrefixHashSized(k, predecessor, v, lines[..|lines| - 1]);
    }
  }

  lemma SameParts(aHash: string, aLine: string, bHash: string, bLine: string)
    requires |aHash| == |bHash| && aHash + aLine + "\n" == bHash + bLine + "\n"
    ensures aHash == bHash && aLine == bLine
  {
    var left, right := aHash + aLine + "\n", bHash + bLine + "\n";
    assert aHash == left[..|aHash|] && bHash == right[..|bHash|];
    assert aLine == left[|aHash|..|left| - 1] && bLine == right[|bHash|..|right| - 1];
  }

  /** Equally many lines under the same final hash are the same lines, or two strings hashed over them collide. */
  lemma {:induction false} HashChainDetermines(k: Codec, predecessor: Option<Trade>, v: Verified, a: seq<string>,
                                               b: seq<string>)
      returns (x: string, y: string)
    requires DigestSized(k.sha) && |v.prefixHash| == 64 && |a| == |b|
    requires Replay(k, predecessor, v, a).Ok? && Replay(k, predecessor, v, b).Ok?
    requires Replay(k, predecessor, v, a).value.prefixHash == Replay(k, predecessor, v, b).value.prefixHash
    ensures a == b || Collide(k, predecessor, v, a, b, x, y)
    decreases |a|
  {
    x, y := "", "";
    if a != [] {
      var aHash, aLine := LastHash(k, predecessor, v, a);
      var bHash, bLine := LastHash(k, predecessor, v, b);
      if aHash + aLine + "\n" == bHash + bLine + "\n" {
        SameParts(aHash, aLine, bHash, bLine);
        x, y := HashChainDetermines(k, predecessor, v, a[..|a| - 1], b[..|b| - 1]);
        if a[..|a| - 1] == b[..|b| - 1] {
          assert a == a[..|a| - 1] + [aLine] && b == b[..|b| - 1] + [bLine];
        } else {
          CollideLater(k, predecessor, v, a, b, x, y);
        }
      } else {
        x, y := aHash + aLine + "\n", bHash + bLine + "\n";
        assert HashedAt(k, predecessor, v, a, |a| - 1, x) && HashedAt(k, predecessor, v, b, |b| - 1, y);
      }
    }
  }

  lemma LastHash(k: Codec, predecessor: Option<Trade>, v: Verified, a: seq<string>) returns (hash: string, line: string)
    requires DigestSized(k.sha) && |v.prefixHash| == 64 && a != [] && Replay(k, predecessor, v, a).Ok?
    ensures Replay(k, predecessor, v, a[..|a| - 1]).Ok?
    ensures hash == Replay(k, predecessor, v, a[..|a| - 1]).value.prefixHash && |hash| == 64 && line == a[|a| - 1]
    ensures Replay(k, predecessor, v, a).value.prefixHash == k.sha(hash + line + "\n")
  {
    hash, line := Replay(k, predecessor, v, a[..|a| - 1]).value.prefixHash, a[|a| - 1];
    PrefixHashSized(k, predecessor, v, a[..|a| - 1]);
  }

  /** An accepted segment between two genuine states holds exactly the genuine lines, or collides with them. */
  lemma AcceptedSegment(k: Codec, c: Cursor, v: Verified, content: string, open: bool, lines: seq<string>)
    requires DigestSized(k.sha) && |v.prefixHash| == 64
    requires ReplaySegment(k, c, v, content, open).Ok?
    requires ReplaySegment(k, c, v, content, open) == Replay(k, c.predecessor, v, lines)
    ensures (if open then Bytes(lines) <= content else Bytes(lines) == content) || Forged(k, c, v, lines, content)
  {
    var limit := if open then c.v.bytes - v.bytes else |content|;
    var read := AcceptedLines(k, c.predecessor, v, content, 0, limit);
    ReplayCounts(k, c.predecessor, v, read);
    ReplayCounts(k, c.predecessor, v, lines);
    var x, y := HashChainDetermines(k, c.predecessor, v, lines, read);
  }

  /** Segment `i` holds its committed lines, the open one perhaps more. */
  ghost predicate Unchanged(e: Disk, log: seq<string>, bases: seq<nat>, i: nat)
    requires i < |bases|
  {
    && bases[i] in e.segments && bases[i] <= End(bases, i, |log|) <= |log|
    && var committed := Bytes(log[bases[i]..End(bases, i, |log|)]);
    if i + 1 == |bases| then committed <= e.segments[bases[i]] else committed == e.segments[bases[i]]
  }

  /** Segment `i` was exchanged under a hash collision with its committed lines. */
  ghost predicate Collision(k: Codec, d: Disk, e: Disk, log: seq<string>, bases: seq<nat>, i: nat)
    requires d.cursor.Some? && i < |bases|
  {
    && bases[i] in d.checkpoints && bases[i] in e.segments && bases[i] <= End(bases, i, |log|) <= |log|
    && Forged(k, d.cursor.value, d.checkpoints[bases[i]].v, log[bases[i]..End(bases, i, |log|)], e.segments[bases[i]])
  }

  /** Whatever happened to the segment files, recovery accepts them only if those it retains end in the journal's own
      newest segments, each with every committed byte unchanged or with a line whose hashed string collides with that of
      a committed one; older ones may only be missing, or, behind a checkpoint that an interrupted expiry left, be
      back. */
  lemma RecoveryAcceptsOnlyCommittedBytes(k: Codec, d: Disk, e: Disk, log: seq<string>, bases: seq<nat>)
      returns (older: seq<nat>, j: nat)
    requires DigestSized(k.sha)
    requires Recoverable(k, d, log, bases) && e == d.(segments := e.segments)
    requires Recovery(k, e).Ok?
    ensures j < |bases| && Ascending(Retained(e, e.cursor.value)) == older + bases[j..]
    ensures forall base :: base in older ==> base < bases[0] && base in d.checkpoints && j == 0
    ensures forall i :: j <= i < |bases| ==> Unchanged(e, log, bases, i) || Collision(k, d, e, log, bases, i)
  {
    hide Recoverable, Unchanged, Collision, Rebuild;
    var c := d.cursor.value;
    var order := Ascending(Retained(e, c));
    AcceptedRebuild(k, e, order);
    RecoverableFiles(k, d, log, bases);
    older, j := AcceptedSuffix(k, d, e, log, bases);
    forall i | j <= i < |bases|
      ensures Unchanged(e, log, bases, i) || Collision(k, d, e, log, bases, i)
    {
      var p := |older| + (i - j);
      assert order[p] == bases[i];
      assert p + 1 < |order| ==> order[p + 1] == bases[i + 1];
      RebuildChains(k, e, c, e.checkpoints[order[0]].v, order, true, p);
      AcceptedBase(k, d, e, log, bases, i);
    }
  }

  lemma AcceptedRebuild(k: Codec, e: Disk, bases: seq<nat>)
    requires Recovery(k, e).Ok? && bases == Ascending(Retained(e, e.cursor.value))
    ensures bases != [] && bases[|bases| - 1] == e.cursor.value.segment && !AnyRefused(e, e.cursor.value)
    ensures forall base :: base in bases ==> base in e.segments && base in e.checkpoints
    ensures Rebuild(k, e, e.cursor.value, e.checkpoints[bases[0]].v, bases, true).Ok?
  {
    AcceptedFiles(e, e.cursor.value);
  }

  /** The retained files are the newest of the journal's own, behind at most some that only have a checkpoint left. */
  lemma AcceptedSuffix(k: Codec, d: Disk, e: Disk, log: seq<string>, bases: seq<nat>) returns (older: seq<nat>, j: nat)
    requires Recoverable(k, d, log, bases) && e == d.(segments := e.segments)
    requires !AnyRefused(e, e.cursor.value) && e.cursor.value.segment in Ascending(Retained(e, e.cursor.value))
    ensures j < |bases| && Ascending(Retained(e, e.cursor.value)) == older + bases[j..]
    ensures forall base :: base in older ==> base < bases[0] && base in d.checkpoints && j == 0
  {
    hide Recoverable, AnyRefused, Ascending, Refused;
    RecoverableFiles(k, d, log, bases);
    var c := d.cursor.value;
    AscendingMembers(Retained(e, c));
    var retained := Retained(e, c);
    j := 0;
    while bases[j] !in retained
      invariant j < |bases| && forall i :: 0 <= i < j ==> bases[i] !in retained
      decreases |bases| - j
    {
      j := j + 1;
    }
    forall base | base in retained
      ensures base in d.checkpoints && base <= c.segment
      ensures forall i :: 0 <= i < |bases| && base <= bases[i] ==> bases[i] in retained
    {
      RetainedFile(d, e, c, base, bases);
    }
    older := Ascending(set base | base in retained && base < bases[0]);
    AscendingMembers(set base | base in retained && base < bases[0]);
    SuffixIsAll(retained, older, bases, j);
  }

  lemma SuffixIsAll(retained: set<nat>, older: seq<nat>, bases: seq<nat>, j: nat)
    requires j < |bases| && bases[j] in retained && forall i :: 0 <= i < j ==> bases[i] !in retained
    requires forall i, k :: 0 <= i < k < |bases| ==> bases[i] < bases[k]
    requires forall base :: base in older <==> base in retained && base < bases[0]
    requires forall i, k :: 0 <= i < k < |older| ==> older[i] < older[k]
    requires forall base :: base in retained ==>
               && (base in bases || base < bases[0])
               && forall i :: 0 <= i < |bases| && base <= bases[i] ==> bases[i] in retained
    ensures Ascending(retained) == older + bases[j..] && (older != [] ==> j == 0)
  {
    var order := older + bases[j..];
    forall base | base in retained
      ensures base in order
    {
      if base in bases {
        var i :| 0 <= i < |bases| && bases[i] == base;
        assert order[|older| + (i - j)] == base;
      }
    }
    forall base | base in order
      ensures base in retained
    {
      if base in bases[j..] {
        var i :| j <= i < |bases| && bases[i] == base;
        assert bases[j] <= bases[i];
      }
    }
    if older != [] {
      assert older[0] in older && older[0] <= bases[0];
    }
    assert j > 0 ==> bases[0] < bases[j];
    forall i, k | 0 <= i < k < |order|
      ensures order[i] < order[k]
    {
      assert i < |older| ==> order[i] in older;
    }
    AscendingIsUnique(retained, order);
  }

  lemma RecoverableFiles(k: Codec, d: Disk, log: seq<string>, bases: seq<nat>)
    requires Recoverable(k, d, log, bases)
    ensures d.cursor.Some? && bases != [] && bases[|bases| - 1] == d.cursor.value.segment
    ensures forall i, j :: 0 <= i < j < |bases| ==> bases[i] < bases[j]
    ensures forall i :: 0 <= i < |bases| ==> bases[i] <= d.cursor.value.segment
    ensures forall base :: base in bases ==> base in d.checkpoints
    ensures forall base :: base in d.checkpoints && base <= d.cursor.value.segment ==> base in bases || base < bases[0]
  {
    ContentFiles(k, d, d.cursor.value, log, bases);
  }

  lemma RetainedFile(d: Disk, e: Disk, c: Cursor, base: nat, bases: seq<nat>)
    requires e == d.(segments := e.segments) && !AnyRefused(e, c) && base in Retained(e, c)
    requires forall i :: 0 <= i < |bases| ==> bases[i] <= c.segment && bases[i] in d.checkpoints
    ensures base in d.checkpoints
    ensures forall i :: 0 <= i < |bases| && base <= bases[i] ==> bases[i] in Retained(e, c)
  {
    assert !Refused(e, c, base);
    forall i | 0 <= i < |bases| && base <= bases[i]
      ensures bases[i] in Retained(e, c)
    {
      assert !Refused(e, c, bases[i]);
      assert Least(e.segments.Keys + {c.segment}) <= base;
    }
  }

  /** An accepted rebuild takes each segment from its checkpoint to the next one's, and the last to the cursor. */
  lemma {:induction false} RebuildChains(k: Codec, e: Disk, c: Cursor, v: Verified, order: seq<nat>, first: bool,
                                         p: nat)
    requires forall base :: base in order ==> base in e.segments && base in e.checkpoints
    requires p < |order| && e.checkpoints[order[0]].v == v && Rebuild(k, e, c, v, order, first).Ok?
    ensures ReplaySegment(k, c, e.checkpoints[order[p]].v, e.segments[order[p]], p + 1 == |order|)
         == Ok(if p + 1 < |order| then e.checkpoints[order[p + 1]].v else c.v)
    decreases |order|
  {
    hide ReplaySegment;
    var n := ReplaySegment(k, c, v, e.segments[order[0]], |order| == 1).value;
    if p > 0 {
      assert order[1..][p - 1] == order[p];
      RebuildChains(k, e, c, n, order[1..], false, p - 1);
    }
  }

  /** A segment accepted between two checkpoints of the journal holds exactly its lines. */
  lemma AcceptedBase(k: Codec, d: Disk, e: Disk, log: seq<string>, bases: seq<nat>, i: nat)
    requires DigestSized(k.sha)
    requires Recoverable(k, d, log, bases) && e == d.(segments := e.segments) && i < |bases|
    requires forall base :: base in bases ==> base in d.checkpoints
    requires bases[i] in e.segments
    requires var c := d.cursor.value;
             ReplaySegment(k, c, d.checkpoints[bases[i]].v, e.segments[bases[i]], i + 1 == |bases|)
             == Ok(if i + 1 < |bases| then d.checkpoints[bases[i + 1]].v else c.v)
    ensures Unchanged(e, log, bases, i) || Collision(k, d, e, log, bases, i)
  {
    hide Bytes, ReplaySegment, Forged;
    var c, end := d.cursor.value, End(bases, i, |log|);
    assert Holds(k, d, c, log, bases, i);
    if i + 1 < |bases| {
      assert Holds(k, d, c, log, bases, i + 1);
    } else {
      assert log[..|log|] == log;
    }
    NextState(k, c, log, bases[i], end);
    PrefixHashSized(k, c.predecessor, Genesis(k, c.start), log[..bases[i]]);
    AcceptedSegment(k, c, d.checkpoints[bases[i]].v, e.segments[bases[i]], i + 1 == |bases|, log[bases[i]..end]);
  }
}
