/** Reads of the retained journal: segmented files refine one flat log. */
module JournalQueries {
  import opened Feed
  import opened JournalFormat
  import opened JournalSteps
  import opened Journal
  import opened Retention

  /** Whole lines of the first `limit` bytes; `expected` is what the committed log holds there. */
  method ReadLines(content: string, limit: nat, ghost expected: seq<string>) returns (r: Result<seq<string>>)
    ensures ValidLines(expected) && limit == |Bytes(expected)| <= |content| && content[..limit] == Bytes(expected) ==>
            r == Ok(expected)
    ensures r.Err? ==> r.code == 21
  {
    hide Bytes, Newline;
    var lines: seq<string>, offset := [], 0;
    ghost var intact := ValidLines(expected) && limit == |Bytes(expected)| <= |content|
      && content[..limit] == Bytes(expected);
    if intact {
      StartOfLines(content, limit, expected);
    }
    while offset < limit
      invariant offset <= |content|
      invariant intact ==> AtLine(content, limit, expected, offset, |lines|) && lines == expected[..|lines|]
      decreases |content| - offset
    {
      var p := Newline(content, offset);
      if intact {
        NextLine(content, limit, expected, offset, |lines|);
      }
      if p == |content| || p - offset > 4095 || p + 1 > limit {
        return Err(21);
      }
      lines := lines + [content[offset..p]];
      offset := p + 1;
    }
    if intact {
      AllRead(content, limit, expected, |lines|);
    }
    return Ok(lines);
  }

  /** The bytes from `offset` to the limit are those of the lines after the first `n`. */
  ghost predicate AtLine(content: string, limit: nat, expected: seq<string>, offset: nat, n: nat) {
    && ValidLines(expected) && n <= |expected| && offset <= limit <= |content|
    && offset + |Bytes(expected[n..])| == limit && content[offset..limit] == Bytes(expected[n..])
  }

  lemma StartOfLines(content: string, limit: nat, expected: seq<string>)
    requires ValidLines(expected) && limit == |Bytes(expected)| <= |content| && content[..limit] == Bytes(expected)
    ensures AtLine(content, limit, expected, 0, 0) && expected[..0] == []
  {
    hide Bytes;
    assert expected[0..] == expected && content[0..limit] == content[..limit];
  }

  lemma NextLine(content: string, limit: nat, expected: seq<string>, offset: nat, n: nat)
    requires AtLine(content, limit, expected, offset, n) && offset < limit
    ensures n < |expected| && expected[..n + 1] == expected[..n] + [expected[n]]
    ensures var p := Newline(content, offset);
            && p - offset <= 4095 && p + 1 <= limit && content[offset..p] == expected[n]
            && AtLine(content, limit, expected, p + 1, n + 1)
  {
    hide Bytes, Newline;
    NoBytes();
    assert expected[n..] != [];
    BytesSplit(content, offset, expected[n..]);
    NewlineAt(content, offset, expected[n]);
    assert expected[n..][1..] == expected[n + 1..];
  }

  lemma AllRead(content: string, limit: nat, expected: seq<string>, n: nat)
    requires AtLine(content, limit, expected, limit, n)
    ensures expected[..n] == expected
  {
    assert |Bytes(expected[n..])| == 0;
    assert expected[n..] == [];
  }

  /** The last segment whose base is not above the index, else the first. */
  function SegmentFor(segments: seq<Segment>, index: nat): (j: nat)
    ensures segments != [] ==> j < |segments|
    ensures segments != [] && segments[0].base <= index ==> segments[j].base <= index
    ensures forall i :: j < i < |segments| ==> segments[i].base > index
  {
    if segments == [] then 0
    else if segments[|segments| - 1].base <= index then |segments| - 1
    else SegmentFor(segments[..|segments| - 1], index)
  }

  /** One segment's lines, read back from its file. */
  method ReadSegment(state: State, position: nat) returns (r: Result<seq<string>>)
    requires state.Valid() && position < |state.segments|
    ensures position < |state.bases| == |state.segments| && state.segments[position].base == state.bases[position]
    ensures position + 1 < |state.segments| ==>
            state.segments[position + 1].base == End(state.bases, position, |state.log|)
    ensures state.bases[position] <= End(state.bases, position, |state.log|) <= |state.log|
    ensures !state.unusable ==> r == Ok(state.log[state.bases[position]..End(state.bases, position, |state.log|)])
    ensures r.Err? ==> r.code == if state.segments[position].base in state.vol.disk.segments then 21 else 22
  {
    hide Consistent, Clean, SafeHistory, Running, Bytes, Follows, ValidCursor;
    ConsistentTable(state.k, state.durable, state.cursor, state.segments, state.staged, state.log, state.bases,
                    state.closing, position);
    var segment := state.segments[position];
    var endBytes := if position + 1 == |state.segments| then state.durable.v.bytes
                    else state.segments[position + 1].bytes;
    if !state.unusable {
      SegmentOnDisk(state.k, state.vol.disk, state.durable, state.log, state.bases, position);
    }
    if segment.base !in state.vol.disk.segments {
      return Err(22);
    }
    ghost var lines := state.log[state.bases[position]..End(state.bases, position, |state.log|)];
    r := ReadLines(state.vol.disk.segments[segment.base], endBytes - segment.bytes, lines);
  }

  lemma SegmentOnDisk(k: Codec, d: Disk, c: Cursor, log: seq<string>, bases: seq<nat>, i: nat)
    requires Clean(k, d, c, log, bases) && i < |bases|
    ensures bases[i] <= End(bases, i, |log|) <= |log| && bases[i] in d.segments
    ensures var lines := log[bases[i]..End(bases, i, |log|)];
            ValidLines(lines) && Bytes(lines) <= d.segments[bases[i]]
  {
    assert Holds(k, d, c, log, bases, i);
  }

  lemma ConsistentTable(k: Codec, durable: Cursor, cursor: Cursor, segments: seq<Segment>, staged: seq<string>,
                        log: seq<string>, bases: seq<nat>, closing: bool, i: nat)
    requires Consistent(k, durable, cursor, segments, staged, log, bases, closing) && i < |segments|
    ensures |segments| == |bases| && segments[i].base == bases[i] <= End(bases, i, |log|) <= |log|
    ensures i + 1 < |segments| ==> segments[i + 1].base == End(bases, i, |log|)
    ensures var end := if i + 1 == |segments| then durable.v.bytes else segments[i + 1].bytes;
            end - segments[i].bytes == |Bytes(log[bases[i]..End(bases, i, |log|)])|
  {
    TableBytes(k, durable, log, bases, segments, i);
    if i + 1 < |segments| {
      TableBytes(k, durable, log, bases, segments, i + 1);
    }
  }

  /** The table's byte offsets delimit each segment's lines. */
  lemma TableBytes(k: Codec, c: Cursor, log: seq<string>, bases: seq<nat>, segments: seq<Segment>, i: nat)
    requires Replay(k, c.predecessor, Genesis(k, c.start), log) == Ok(c.v)
    requires Boundaries(bases, c, |log|) && Describes(k, c, log, bases, segments) && i < |bases|
    ensures segments[i].base == bases[i] <= End(bases, i, |log|) <= |log|
    ensures var end := if i + 1 == |segments| then c.v.bytes else segments[i + 1].bytes;
            end - segments[i].bytes == |Bytes(log[bases[i]..End(bases, i, |log|)])|
  {
    assert bases[i] <= c.segment;
    NextState(k, c, log, bases[i], End(bases, i, |log|));
    assert i + 1 == |bases| ==> log[..|log|] == log;
  }

  /** The messages of one segment that a scan from `from` reports. */
  function Reported(read: seq<string>, index: nat, from: nat): seq<string> {
    if index >= from then read else if from - index <= |read| then read[from - index..] else []
  }

  /** The messages from one index up to another. */
  function LogFrom(log: seq<string>, from: nat, index: nat): seq<string> {
    if index <= from || index > |log| then [] else log[from..index]
  }

  lemma ReportedLog(log: seq<string>, from: nat, index: nat, end: nat)
    requires index <= end <= |log| && from <= |log|
    ensures LogFrom(log, from, index) + Reported(log[index..end], index, from) == LogFrom(log, from, end)
  {
  }

  lemma NothingReported(log: seq<string>, from: nat, index: nat)
    ensures index <= from ==> LogFrom(log, from, index) == []
  {
  }

  lemma WholeLog(log: seq<string>, from: nat)
    requires from < |log|
    ensures LogFrom(log, from, |log|) == log[from..]
  {
    assert log[from..|log|] == log[from..];
  }

  lemma ThenStaged(log: seq<string>, staged: seq<string>, from: nat)
    requires from <= |log + staged|
    ensures (if from < |log| then log[from..] else []) + Reported(staged, |log|, from) == (log + staged)[from..]
  {
    if from >= |log| {
      assert (log + staged)[from..] == staged[from - |log|..];
    }
  }

  /** Every retained message from `from` on, committed then staged, in order: a scan over all segment boundaries. */
  method Visit(state: State, from: nat) returns (r: Result<seq<string>>)
    requires state.Valid()
    ensures state.segments != []
    ensures from > state.cursor.v.index || from < state.segments[0].base ==> r == Err(22)
    ensures state.segments[0].base <= from <= state.cursor.v.index && !state.unusable ==>
              from <= |state.log + state.staged| && r == Ok((state.log + state.staged)[from..])
  {
    hide Consistent, Clean, SafeHistory, Running, Bytes, Follows, ValidCursor, Reported;
    ConsistentFacts(state.k, state.durable, state.cursor, state.segments, state.staged, state.log, state.bases,
                    state.closing);
    if from > state.cursor.v.index || from < state.segments[0].base {
      return Err(22);
    }
    var committed: seq<string> := [];
    if from < state.durable.v.index {
      committed :- VisitCommitted(state, from);
    }
    var index := state.durable.v.index;
    ThenStaged(state.log, state.staged, from);
    return Ok(committed + Reported(state.staged, index, from));
  }

  method VisitCommitted(state: State, from: nat) returns (r: Result<seq<string>>)
    requires state.Valid() && state.segments != [] && state.segments[0].base <= from < |state.log|
    ensures !state.unusable ==> r == Ok(state.log[from..])
  {
    hide Consistent, Clean, SafeHistory, Running, Bytes, Follows, ValidCursor, Reported;
    ConsistentFacts(state.k, state.durable, state.cursor, state.segments, state.staged, state.log, state.bases,
                    state.closing);
    ghost var log := state.log;
    var position := SegmentFor(state.segments, from);
    var index := state.segments[position].base;
    var lines: seq<string> := [];
    NothingReported(log, from, index);
    while position < |state.segments|
      invariant position <= |state.segments|
      invariant position < |state.segments| ==> index == state.segments[position].base
      invariant position == |state.segments| ==> index == |log|
      invariant !state.unusable ==> lines == LogFrom(log, from, index)
    {
      ghost var base, end := index, End(state.bases, position, |log|);
      var read :- ReadSegment(state, position);
      lines := lines + Reported(read, index, from);
      index := index + |read|;
      position := position + 1;
      if index != (if position == |state.segments| then state.durable.v.index else state.segments[position].base) {
        return Err(21);
      }
      if !state.unusable {
        ReportedLog(log, from, base, end);
      }
    }
    WholeLog(log, from);
    return Ok(lines);
  }

  /** A print by ID: the scan from the chosen segment equals a linear search of everything ever staged. */
  method TradeById(state: State, id: nat) returns (r: Result<Option<Trade>>)
    requires state.Valid()
    ensures state.segments != []
    ensures !state.unusable && !ExpiredId(state.segments[0], id) ==>
            r == Ok(FindPrint(state.k, state.log + state.staged, id))
  {
    hide Consistent, Clean, SafeHistory, Running, Bytes, Follows, ValidCursor, Stream;
    ConsistentFacts(state.k, state.durable, state.cursor, state.segments, state.staged, state.log, state.bases,
                    state.closing);
    StreamOf(state.k, state.durable, state.cursor, state.segments, state.staged, state.log, state.bases, state.closing);
    var chosen := LastBelow(state.segments, id);
    if !ExpiredId(state.segments[0], id) {
      FindFromSegment(state.k, state.cursor, state.log + state.staged, state.bases, state.segments, id);
    }
    var lines :- Visit(state, state.segments[chosen].base);
    var found := FindIn(state.k, lines, id);
    return Ok(found);
  }

  method FindIn(k: Codec, lines: seq<string>, id: nat) returns (found: Option<Trade>)
    ensures found == FindPrint(k, lines, id)
  {
    var i := 0;
    assert lines[0..] == lines;
    while i < |lines|
      invariant i <= |lines|
      invariant FindPrint(k, lines, id) == FindPrint(k, lines[i..], id)
    {
      var message := k.parse(lines[i]);
      assert lines[i..][1..] == lines[i + 1..];
      if message.Some? && message.value.Tick? && message.value.trade.id == id {
        return Some(message.value.trade);
      }
      i := i + 1;
    }
    return None;
  }

  /** A closed bar by its minute: the scan from the minute's index equals a linear search of everything ever staged. */
  method BarAt(state: State, minute: int) returns (r: Result<Option<Bar>>)
    requires state.Valid()
    ensures state.segments != []
    ensures !state.unusable && !ExpiredMinute(state.k.mode, state.segments[0], minute) ==>
              r == Ok(FindBar(state.k, state.log + state.staged, minute))
  {
    hide Consistent, Clean, SafeHistory, Running, Bytes, Follows, ValidCursor, Stream;
    ConsistentFacts(state.k, state.durable, state.cursor, state.segments, state.staged, state.log, state.bases,
                    state.closing);
    StreamOf(state.k, state.durable, state.cursor, state.segments, state.staged, state.log, state.bases, state.closing);
    if !ExpiredMinute(state.k.mode, state.segments[0], minute) {
      FindBarFromIndex(state.k, state.cursor, state.log + state.staged, state.bases, state.segments, minute);
    }
    var from := IndexForMinute(state, minute);
    var lines :- Visit(state, from);
    var found := BarIn(state.k, lines, minute);
    return Ok(found);
  }

  method BarIn(k: Codec, lines: seq<string>, minute: int) returns (found: Option<Bar>)
    ensures found == FindBar(k, lines, minute)
  {
    var i := 0;
    assert lines[0..] == lines;
    while i < |lines|
      invariant i <= |lines|
      invariant FindBar(k, lines, minute) == FindBar(k, lines[i..], minute)
    {
      var message := k.parse(lines[i]);
      assert lines[i..][1..] == lines[i + 1..];
      if message.Some? && message.value.BarClose? && message.value.bar.ts == minute {
        return Some(message.value.bar);
      }
      i := i + 1;
    }
    return None;
  }

  /** The whole stream, staged lines included, behind the same segment table. */
  lemma StreamOf(k: Codec, durable: Cursor, cursor: Cursor, segments: seq<Segment>, staged: seq<string>,
                 log: seq<string>, bases: seq<nat>, closing: bool)
    requires Consistent(k, durable, cursor, segments, staged, log, bases, closing)
    ensures Stream(k, cursor, log + staged, bases, segments)
    ensures forall i :: 0 <= i < |segments| ==> segments[0].base <= segments[i].base <= |log|
  {
    ReplayConcat(k, durable.predecessor, Genesis(k, durable.start), log, staged);
    CommittedDescribes(k, durable, cursor, log, staged, bases, segments);
    forall i | 0 <= i < |segments|
      ensures segments[i].base == bases[i] && segments[0].base == bases[0] && bases[0] <= bases[i]
    {
      ReplayCounts(k, durable.predecessor, Genesis(k, durable.start), log[..bases[i]]);
      ReplayCounts(k, durable.predecessor, Genesis(k, durable.start), log[..bases[0]]);
    }
  }

  /** A minute's prints, as a session rebuilds its aggregate: the whole history's prints of that minute. */
  method MinuteFromJournal(state: State, minute: int) returns (r: Result<seq<Trade>>)
    requires state.Valid() && minute % MINUTE == 0
    ensures state.segments != []
    ensures !state.unusable && !ExpiredMinute(state.k.mode, state.segments[0], minute) ==>
              r == Ok(MinutePrints(state.k, state.log + state.staged, minute))
  {
    hide Consistent, Clean, SafeHistory, Running, Bytes, Follows, ValidCursor, Stream;
    ConsistentFacts(state.k, state.durable, state.cursor, state.segments, state.staged, state.log, state.bases,
                    state.closing);
    StreamOf(state.k, state.durable, state.cursor, state.segments, state.staged, state.log, state.bases, state.closing);
    if !ExpiredMinute(state.k.mode, state.segments[0], minute) {
      MinuteRebuilds(state.k, state.cursor, state.log + state.staged, state.bases, state.segments, minute);
    }
    var from := IndexForMinute(state, minute);
    var lines :- Visit(state, from);
    var prints := PrintsOf(state.k, lines, minute);
    return Ok(prints);
  }

  method PrintsOf(k: Codec, lines: seq<string>, minute: int) returns (prints: seq<Trade>)
    ensures prints == MinutePrints(k, lines, minute)
  {
    prints := [];
    var i := 0;
    while i < |lines|
      invariant i <= |lines| && prints == MinutePrints(k, lines[..i], minute)
    {
      assert lines[..i + 1][..i] == lines[..i];
      var message := k.parse(lines[i]);
      if message.Some? && message.value.Tick? && minute <= message.value.trade.ts < minute + MINUTE {
        prints := prints + [message.value.trade];
      }
      i := i + 1;
    }
    assert lines[..i] == lines;
  }

  /** The first retained index from which every message of the minute is visited. */
  method IndexForMinute(state: State, minute: int) returns (index: nat)
    requires state.segments != []
    ensures index == state.segments[LastBefore(state.segments, minute)].base
  {
    var chosen, i := 0, 0;
    while i < |state.segments|
      invariant i <= |state.segments|
      invariant chosen == LastBefore(state.segments[..i], minute)
    {
      assert state.segments[..i + 1][..i] == state.segments[..i];
      if state.segments[i].cut < minute {
        chosen := i;
      }
      i := i + 1;
    }
    assert state.segments[..i] == state.segments;
    return state.segments[chosen].base;
  }
}
