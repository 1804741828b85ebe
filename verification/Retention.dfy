/** What retention may forget: expired minutes exactly, and why the retained journal still answers for the others. */
module Retention {
  import opened Feed
  import opened JournalFormat
  import opened JournalSteps
  import opened Journal

  /** The verified stream: `log` replays from the start, and the table describes its retained boundaries. */
  ghost predicate Stream(k: Codec, c: Cursor, log: seq<string>, bases: seq<nat>, segments: seq<Segment>) {
    && 0 <= c.start && c.start % MINUTE == 0
    && Replay(k, c.predecessor, Genesis(k, c.start), log).Ok?
    && bases != [] && Describes(k, c, log, bases, segments)
  }

  /** The open minute in which message `i` was verified. */
  function CutAt(k: Codec, c: Cursor, log: seq<string>, i: nat): int
    requires i <= |log|
  {
    match StateAt(k, c, log, i)
    case Ok(v) => v.cut
    case Err(_) => 0
  }

  /** Message `i` is a print of the minute, its closed bar, or its `time` line. */
  ghost predicate BelongsTo(k: Codec, c: Cursor, log: seq<string>, i: nat, minute: int) {
    i < |log| && CutAt(k, c, log, i) == minute
  }

  predicate ExpiredMinute(mode: Mode, first: Segment, minute: int) {
    first.base != 0 && (minute < first.cut || (mode.TickMode() && minute == first.cut && first.lastTickTs >= first.cut))
  }

  predicate ExpiredId(first: Segment, id: nat) {
    first.base != 0 && id <= first.lastId
  }

  lemma StateSteps(k: Codec, c: Cursor, log: seq<string>, i: nat)
    requires i < |log| && Replay(k, c.predecessor, Genesis(k, c.start), log).Ok?
    ensures StateAt(k, c, log, i).Ok? && StateAt(k, c, log, i + 1).Ok?
    ensures Step(k, c.predecessor, StateAt(k, c, log, i).value, log[i]) == StateAt(k, c, log, i + 1)
  {
    ReplayPrefix(k, c.predecessor, Genesis(k, c.start), log, i + 1);
    assert log[..i + 1][..i] == log[..i];
  }

  lemma StartCut(k: Codec, c: Cursor, log: seq<string>)
    ensures CutAt(k, c, log, 0) == c.start
  {
    assert log[..0] == [];
  }

  lemma {:induction false} StateGrows(k: Codec, c: Cursor, log: seq<string>, i: nat, j: nat)
    requires i <= j <= |log| && Replay(k, c.predecessor, Genesis(k, c.start), log).Ok?
    ensures StateAt(k, c, log, i).Ok? && StateAt(k, c, log, j).Ok?
    ensures var v, w := StateAt(k, c, log, i).value, StateAt(k, c, log, j).value;
            v.cut <= w.cut && (w.cut - v.cut) % MINUTE == 0 && v.lastId <= w.lastId && v.lastTickTs <= w.lastTickTs
              && v.index == i
    decreases j
  {
    hide Step, StateAt, Replay;
    if i < j {
      StateSteps(k, c, log, j - 1);
      StateGrows(k, c, log, i, j - 1);
      StepMonotone(k, c.predecessor, StateAt(k, c, log, j - 1).value, log[j - 1]);
    } else {
      NextState(k, c, log, i, j);
    }
  }

  /** Every minute between the start and the cut has a message. */
  lemma {:induction false} MinuteCovered(k: Codec, c: Cursor, log: seq<string>, n: nat, minute: int) returns (i: nat)
    requires n <= |log| && Replay(k, c.predecessor, Genesis(k, c.start), log).Ok?
    requires c.start <= minute < CutAt(k, c, log, n) && (minute - c.start) % MINUTE == 0
    ensures i < n && BelongsTo(k, c, log, i, minute)
    decreases n
  {
    if n == 0 {
      StartCut(k, c, log);
      assert false;
    } else {
      hide Step, Replay;
      StartCut(k, c, log);
      StateSteps(k, c, log, n - 1);
      StepMonotone(k, c.predecessor, StateAt(k, c, log, n - 1).value, log[n - 1]);
      StateGrows(k, c, log, 0, n - 1);
      if minute < CutAt(k, c, log, n - 1) {
        i := MinuteCovered(k, c, log, n - 1, minute);
      } else {
        i := n - 1;
      }
    }
  }

  /** A tick time inside the open minute was verified in that minute. */
  lemma TickInOpenMinute(k: Codec, c: Cursor, log: seq<string>, n: nat) returns (i: nat)
    requires n <= |log| && Replay(k, c.predecessor, Genesis(k, c.start), log).Ok? && c.start >= 0 && k.mode.TickMode()
    requires StateAt(k, c, log, n).Ok? && StateAt(k, c, log, n).value.lastTickTs >= CutAt(k, c, log, n)
    ensures i < n && BelongsTo(k, c, log, i, CutAt(k, c, log, n))
  {
    if n == 0 {
      assert false;
    } else {
      StateSteps(k, c, log, n - 1);
      i := n - 1;
    }
  }

  /** A minute is expired exactly when some message of it lies before the first retained segment. */
  lemma ExpiredExactly(k: Codec, c: Cursor, log: seq<string>, bases: seq<nat>, segments: seq<Segment>, minute: int)
    requires Stream(k, c, log, bases, segments)
    requires c.start <= minute && minute % MINUTE == 0
    ensures ExpiredMinute(k.mode, segments[0], minute) <==>
            exists i: nat :: i < segments[0].base && BelongsTo(k, c, log, i, minute)
  {
    hide Step, Replay;
    var n := bases[0];
    StateGrows(k, c, log, n, n);
    var v := StateAt(k, c, log, n).value;
    if ExpiredMinute(k.mode, segments[0], minute) {
      if minute < v.cut {
        StateGrows(k, c, log, 0, n);
        var i := MinuteCovered(k, c, log, n, minute);
      } else {
        var i := TickInOpenMinute(k, c, log, n);
      }
    }
    forall i: nat | i < n && BelongsTo(k, c, log, i, minute)
      ensures ExpiredMinute(k.mode, segments[0], minute)
    {
      EarlierIsExpired(k, c, log, bases, segments, minute, i);
    }
  }

  /** A message of the minute before the first segment makes the minute expired. */
  lemma EarlierIsExpired(k: Codec, c: Cursor, log: seq<string>, bases: seq<nat>, segments: seq<Segment>, minute: int,
                         i: nat)
    requires Stream(k, c, log, bases, segments) && i < bases[0] <= |log| && BelongsTo(k, c, log, i, minute)
    ensures ExpiredMinute(k.mode, segments[0], minute)
  {
    hide Replay;
    var n := bases[0];
    StateGrows(k, c, log, i, n);
    StateSteps(k, c, log, i);
    StateGrows(k, c, log, i + 1, n);
    StateGrows(k, c, log, n, n);
    MovesOn(k, c.predecessor, StateAt(k, c, log, i).value, log[i]);
  }

  /** A verified message leaves a print of its minute behind, or ends it. */
  lemma MovesOn(k: Codec, predecessor: Option<Trade>, v: Verified, line: string)
    requires Step(k, predecessor, v, line).Ok?
    ensures var n := Step(k, predecessor, v, line).value;
            n.cut > v.cut || (n.cut == v.cut && k.mode.TickMode() && n.lastTickTs >= v.cut)
  {
  }

  /** Nothing of the protected window has expired. */
  lemma ProtectedWindowRetained(k: Codec, c: Cursor, log: seq<string>, bases: seq<nat>, segments: seq<Segment>,
                                minute: int)
    requires Stream(k, c, log, bases, segments) && Guarded(k, c, log, bases[0], true)
    requires minute >= ProtectedStart(c) && minute % MINUTE == 0
    ensures !ExpiredMinute(k.mode, segments[0], minute)
    ensures forall i: nat :: i < segments[0].base ==> !BelongsTo(k, c, log, i, minute)
    ensures k.mode.TickMode() && c.v.lastId != 0 ==> segments[0].lastId < c.v.lastId
  {
    StateGrows(k, c, log, bases[0], bases[0]);
    forall i: nat | i < segments[0].base
      ensures !BelongsTo(k, c, log, i, minute)
    {
      StateGrows(k, c, log, i, bases[0]);
    }
  }

  /** The open minute has not expired, and no minute a proof is held of has. */
  lemma ProofsRetained(k: Codec, c: Cursor, log: seq<string>, bases: seq<nat>, segments: seq<Segment>)
    requires Stream(k, c, log, bases, segments) && Guarded(k, c, log, bases[0], true) && ValidCursor(c)
    ensures !ExpiredMinute(k.mode, segments[0], c.v.cut)
    ensures forall i :: 0 <= i < |c.proofs| ==> !ExpiredMinute(k.mode, segments[0], c.proofs[i].ts)
  {
    hide Replay, StateAt, ExpiredMinute, ProtectedStart;
    ProtectedStartIs(c);
    ProtectedWindowRetained(k, c, log, bases, segments, c.v.cut);
    forall i | 0 <= i < |c.proofs|
      ensures !ExpiredMinute(k.mode, segments[0], c.proofs[i].ts)
    {
      ProtectedWindowRetained(k, c, log, bases, segments, c.proofs[i].ts);
    }
  }

  /** Whatever the proofs say, the newest print has not expired. */
  lemma NewestPrintRetained(k: Codec, c: Cursor, log: seq<string>, bases: seq<nat>, segments: seq<Segment>,
                            closing: bool)
    requires Stream(k, c, log, bases, segments) && Guarded(k, c, log, bases[0], closing)
    requires k.mode.TickMode() && c.v.lastId != 0
    ensures !ExpiredId(segments[0], c.v.lastId)
  {
    StateGrows(k, c, log, bases[0], bases[0]);
  }

  /** The last segment that starts before the minute, else the first. */
  function LastBefore(segments: seq<Segment>, minute: int): (j: nat)
    ensures segments != [] ==> j < |segments|
    ensures segments != [] ==> segments[j].cut < minute
                               || (j == 0 && forall i :: 0 <= i < |segments| ==> segments[i].cut >= minute)
  {
    if segments == [] then 0
    else if segments[|segments| - 1].cut < minute then |segments| - 1
    else LastBefore(segments[..|segments| - 1], minute)
  }

  lemma IndexCoversMinute(k: Codec, c: Cursor, log: seq<string>, bases: seq<nat>, segments: seq<Segment>, minute: int,
                          i: nat)
    requires Stream(k, c, log, bases, segments)
    requires !ExpiredMinute(k.mode, segments[0], minute) && BelongsTo(k, c, log, i, minute)
    ensures segments[LastBefore(segments, minute)].base <= i
  {
    hide Step, Replay;
    var j := LastBefore(segments, minute);
    assert segments[j] == SegmentOf(StateAt(k, c, log, bases[j]).value);
    StateGrows(k, c, log, bases[j], bases[j]);
    if i < bases[j] {
      StateGrows(k, c, log, i, bases[j]);
      StateGrows(k, c, log, 0, i);
      StartCut(k, c, log);
      assert j == 0;
      ExpiredExactly(k, c, log, bases, segments, minute);
      assert false;
    }
  }

  // ---------- Rebuilding a minute from the retained journal ----------

  /** The prints of one minute among some lines, in order. */
  function MinutePrints(k: Codec, lines: seq<string>, minute: int): seq<Trade> {
    if lines == [] then []
    else
      var front := MinutePrints(k, lines[..|lines| - 1], minute);
      match k.parse(lines[|lines| - 1])
      case Some(Tick(trade)) => if minute <= trade.ts < minute + MINUTE then front + [trade] else front
      case _ => front
  }

  lemma {:induction false} MinutePrintsConcat(k: Codec, a: seq<string>, b: seq<string>, minute: int)
    ensures MinutePrints(k, a + b, minute) == MinutePrints(k, a, minute) + MinutePrints(k, b, minute)
  {
    if b == [] {
      assert a + b == a;
    } else {
      assert (a + b)[..|a + b| - 1] == a + b[..|b| - 1];
      MinutePrintsConcat(k, a, b[..|b| - 1], minute);
    }
  }

  lemma {:induction false} NoMinutePrints(k: Codec, c: Cursor, log: seq<string>, n: nat, minute: int)
    requires n <= |log| && Replay(k, c.predecessor, Genesis(k, c.start), log).Ok?
    requires minute % MINUTE == 0 && c.start % MINUTE == 0
    requires forall i: nat :: i < n ==> !BelongsTo(k, c, log, i, minute)
    ensures MinutePrints(k, log[..n], minute) == []
    decreases n
  {
    if n > 0 {
      hide StateAt, Replay, BelongsTo;
      assert log[..n][..n - 1] == log[..n - 1];
      NoMinutePrints(k, c, log, n - 1, minute);
      NotThatMinute(k, c, log, n - 1, minute);
    }
  }

  lemma NotThatMinute(k: Codec, c: Cursor, log: seq<string>, i: nat, minute: int)
    requires i < |log| && Replay(k, c.predecessor, Genesis(k, c.start), log).Ok?
    requires minute % MINUTE == 0 && c.start % MINUTE == 0 && !BelongsTo(k, c, log, i, minute)
    ensures k.parse(log[i]).Some? && k.parse(log[i]).value.Tick? ==>
            !(minute <= k.parse(log[i]).value.trade.ts < minute + MINUTE)
  {
    hide Replay;
    StateSteps(k, c, log, i);
    StateGrows(k, c, log, 0, i);
    StartCut(k, c, log);
  }

  /** Reading from the minute's index sees exactly the prints of the minute that the whole history holds. */
  lemma MinuteRebuilds(k: Codec, c: Cursor, log: seq<string>, bases: seq<nat>, segments: seq<Segment>, minute: int)
    requires Stream(k, c, log, bases, segments)
    requires minute % MINUTE == 0 && !ExpiredMinute(k.mode, segments[0], minute)
    ensures var from := segments[LastBefore(segments, minute)].base;
            from <= |log| && MinutePrints(k, log[from..], minute) == MinutePrints(k, log, minute)
  {
    hide MinutePrints, BelongsTo, ExpiredMinute, StateAt, Replay;
    var j := LastBefore(segments, minute);
    StateGrows(k, c, log, bases[j], bases[j]);
    var from := bases[j];
    assert segments[j].base == from;
    forall i: nat | i < from
      ensures !BelongsTo(k, c, log, i, minute)
    {
      if BelongsTo(k, c, log, i, minute) {
        IndexCoversMinute(k, c, log, bases, segments, minute, i);
      }
    }
    NoMinutePrints(k, c, log, from, minute);
    assert log == log[..from] + log[from..];
    MinutePrintsConcat(k, log[..from], log[from..], minute);
  }

  // ---------- Finding a print by ID ----------

  /** The first print with this ID in some lines. */
  function FindPrint(k: Codec, lines: seq<string>, id: nat): Option<Trade> {
    if lines == [] then None
    else
      match k.parse(lines[0])
      case Some(Tick(trade)) => if trade.id == id then Some(trade) else FindPrint(k, lines[1..], id)
      case _ => FindPrint(k, lines[1..], id)
  }

  /** The last segment whose state precedes the print, else the first. */
  function LastBelow(segments: seq<Segment>, id: nat): (j: nat)
    ensures segments != [] ==> j < |segments|
    ensures segments != [] ==> segments[j].lastId < id
                               || (j == 0 && forall i :: 0 <= i < |segments| ==> segments[i].lastId >= id)
  {
    if segments == [] then 0
    else if segments[|segments| - 1].lastId < id then |segments| - 1
    else LastBelow(segments[..|segments| - 1], id)
  }

  /** A print before segment `n` has an ID that segment's state covers. */
  lemma EarlierPrints(k: Codec, c: Cursor, log: seq<string>, i: nat, n: nat)
    requires i < n <= |log| && Replay(k, c.predecessor, Genesis(k, c.start), log).Ok?
    ensures k.parse(log[i]).Some? && k.parse(log[i]).value.Tick? ==>
              StateAt(k, c, log, n).Ok? && k.parse(log[i]).value.trade.id <= StateAt(k, c, log, n).value.lastId
  {
    StateSteps(k, c, log, i);
    StateGrows(k, c, log, i + 1, n);
  }

  lemma {:induction false} FindSkips(k: Codec, lines: seq<string>, from: nat, id: nat)
    requires from <= |lines|
    requires forall i :: 0 <= i < from ==> k.parse(lines[i]).Some? && k.parse(lines[i]).value.Tick? ==>
             k.parse(lines[i]).value.trade.id != id
    ensures FindPrint(k, lines, id) == FindPrint(k, lines[from..], id)
  {
    if from > 0 {
      assert lines[1..][from - 1..] == lines[from..];
      FindSkips(k, lines[1..], from - 1, id);
    } else {
      assert lines[0..] == lines;
    }
  }

  /** Searching from the chosen segment finds what a linear search of the whole history finds. */
  lemma FindFromSegment(k: Codec, c: Cursor, log: seq<string>, bases: seq<nat>, segments: seq<Segment>, id: nat)
    requires Stream(k, c, log, bases, segments) && !ExpiredId(segments[0], id)
    ensures var from := segments[LastBelow(segments, id)].base;
            from <= |log| && FindPrint(k, log[from..], id) == FindPrint(k, log, id)
  {
    var j := LastBelow(segments, id);
    StateGrows(k, c, log, bases[j], bases[j]);
    var from := bases[j];
    forall i | 0 <= i < from
      ensures k.parse(log[i]).Some? && k.parse(log[i]).value.Tick? ==> k.parse(log[i]).value.trade.id != id
    {
      EarlierPrints(k, c, log, i, from);
    }
    FindSkips(k, log, from, id);
  }

  // ---------- Finding a bar by minute ----------

  /** The first closed bar of a minute in some lines. */
  function FindBar(k: Codec, lines: seq<string>, minute: int): Option<Bar> {
    if lines == [] then None
    else
      match k.parse(lines[0])
      case Some(BarClose(bar)) => if bar.ts == minute then Some(bar) else FindBar(k, lines[1..], minute)
      case _ => FindBar(k, lines[1..], minute)
  }

  lemma BarBelongs(k: Codec, c: Cursor, log: seq<string>, i: nat)
    requires i < |log| && Replay(k, c.predecessor, Genesis(k, c.start), log).Ok?
    ensures k.parse(log[i]).Some? && k.parse(log[i]).value.BarClose? ==>
            BelongsTo(k, c, log, i, k.parse(log[i]).value.bar.ts)
  {
    StateSteps(k, c, log, i);
  }

  lemma {:induction false} FindBarSkips(k: Codec, lines: seq<string>, from: nat, minute: int)
    requires from <= |lines|
    requires forall i :: 0 <= i < from ==> k.parse(lines[i]).Some? && k.parse(lines[i]).value.BarClose? ==>
             k.parse(lines[i]).value.bar.ts != minute
    ensures FindBar(k, lines, minute) == FindBar(k, lines[from..], minute)
  {
    if from > 0 {
      assert lines[1..][from - 1..] == lines[from..];
      FindBarSkips(k, lines[1..], from - 1, minute);
    } else {
      assert lines[0..] == lines;
    }
  }

  /** Searching from the minute's index finds the bar that a linear search of the whole history finds. */
  lemma FindBarFromIndex(k: Codec, c: Cursor, log: seq<string>, bases: seq<nat>, segments: seq<Segment>, minute: int)
    requires Stream(k, c, log, bases, segments) && !ExpiredMinute(k.mode, segments[0], minute)
    ensures var from := segments[LastBefore(segments, minute)].base;
            from <= |log| && FindBar(k, log[from..], minute) == FindBar(k, log, minute)
  {
    hide BelongsTo, ExpiredMinute, StateAt, Replay;
    var j := LastBefore(segments, minute);
    StateGrows(k, c, log, bases[j], bases[j]);
    var from := bases[j];
    assert segments[j].base == from;
    forall i: nat | i < from
      ensures k.parse(log[i]).Some? && k.parse(log[i]).value.BarClose? ==> k.parse(log[i]).value.bar.ts != minute
    {
      BarBelongs(k, c, log, i);
      if BelongsTo(k, c, log, i, minute) {
        IndexCoversMinute(k, c, log, bases, segments, minute, i);
      }
    }
    FindBarSkips(k, log, from, minute);
  }
}
