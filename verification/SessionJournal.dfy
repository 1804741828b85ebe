/** A session's ledger is the journal: the same messages, the same answers, and the same verdict on every line. */
module SessionJournal {
  import opened Feed
  import opened JournalFormat
  import opened JournalSteps
  import J = Journal
  import JournalRecovery
  import opened Volumes
  import opened Retention
  import opened Tape
  import opened Aggregates
  import opened Ledgers

  /** The ledger that describes these journal lines under this cursor. */
  ghost predicate Mirrors(k: Codec, c: Cursor, lines: seq<string>, l: Ledger) {
    && l.mode == k.mode && l.start == c.start && l.predecessor == c.predecessor && l.proofs == c.proofs
    && SamePosition(l.v, c.v) && l.log == Messages(k, lines)
  }

  lemma MessagesOfMore(k: Codec, lines: seq<string>, line: string)
    ensures Messages(k, lines + [line])
         == Messages(k, lines) + (if k.parse(line).Some? then [k.parse(line).value] else [])
  {
    assert (lines + [line])[..|lines|] == lines;
  }

  /** The journal accepts a line exactly when the session's ledger accepts its message, and they stay mirrors. */
  lemma StagedAgrees(k: Codec, c: Cursor, lines: seq<string>, l: Ledger, line: string, proof: Option<Bar>)
    requires Mirrors(k, c, lines, l)
    ensures var staged := J.Staged(k, c, line, proof);
            var m := k.parse(line);
            && (staged.Ok? <==> ValidLine(line) && c.v.index < MAX_U64 && m.Some? && Staged(l, m.value, proof).Ok?)
            && (staged.Ok? ==> Mirrors(k, staged.value, lines + [line], Staged(l, m.value, proof).value))
            && (ValidLine(line) && c.v.index < MAX_U64 && staged.Err? ==>
                  staged.code == if m.None? then 21 else Staged(l, m.value, proof).code)
  {
    MessagesOfMore(k, lines, line);
  }

  /** Searching the journal's lines for a print is searching the ledger's prints. */
  lemma {:induction false} FindAgrees(k: Codec, lines: seq<string>, id: nat)
    ensures FindPrint(k, lines, id) == FindIn(PrintsIn(Messages(k, lines)), id)
  {
    if lines != [] {
      var front, line := lines[..|lines| - 1], lines[|lines| - 1];
      assert lines == front + [line];
      FindAgrees(k, front, id);
      FindInMore(k, front, line, id);
      PrintsOfMore(k, front, line);
    }
  }

  predicate IsPrint(k: Codec, line: string) { k.parse(line).Some? && k.parse(line).value.Tick? }

  lemma {:induction false} FindInMore(k: Codec, lines: seq<string>, line: string, id: nat)
    ensures FindPrint(k, lines + [line], id)
         == if FindPrint(k, lines, id).Some? then FindPrint(k, lines, id)
            else if IsPrint(k, line) && k.parse(line).value.trade.id == id then Some(k.parse(line).value.trade)
                 else None
    decreases |lines|
  {
    var all := lines + [line];
    if lines == [] {
      assert all[1..] == [];
    } else {
      assert all[1..] == lines[1..] + [line];
      FindInMore(k, lines[1..], line, id);
    }
  }

  lemma PrintsOfMore(k: Codec, lines: seq<string>, line: string)
    ensures PrintsIn(Messages(k, lines + [line]))
         == if IsPrint(k, line) then PrintsIn(Messages(k, lines)) + [k.parse(line).value.trade]
            else PrintsIn(Messages(k, lines))
  {
    MessagesOfMore(k, lines, line);
    var log := Messages(k, lines + [line]);
    if k.parse(line).Some? {
      assert log[..|log| - 1] == Messages(k, lines);
    }
  }

  /** Reading a minute's prints from the journal's lines is selecting them from the ledger's prints. */
  lemma {:induction false} MinuteAgrees(k: Codec, lines: seq<string>, minute: int)
    ensures MinutePrints(k, lines, minute) == MinuteOf(PrintsIn(Messages(k, lines)), minute)
  {
    if lines != [] {
      var front, line := lines[..|lines| - 1], lines[|lines| - 1];
      assert lines == front + [line];
      MinuteAgrees(k, front, minute);
      PrintsOfMore(k, front, line);
      var prints := PrintsIn(Messages(k, lines));
      if IsPrint(k, line) {
        assert prints[..|prints| - 1] == PrintsIn(Messages(k, front));
      }
    }
  }

  /** Every line of a stream that replays is a message. */
  lemma {:induction false} AllMessages(k: Codec, predecessor: Option<Trade>, v: Verified, lines: seq<string>)
    requires Replay(k, predecessor, v, lines).Ok?
    ensures |Messages(k, lines)| == |lines|
    ensures forall i :: 0 <= i < |lines| ==> k.parse(lines[i]) == Some(Messages(k, lines)[i])
  {
    if lines != [] {
      AllMessages(k, predecessor, v, lines[..|lines| - 1]);
    }
  }

  /** The journal index a restart reads from skips no print of the open minute. */
  lemma IndexSkipsNothingOpen(k: Codec, c: Cursor, lines: seq<string>, bases: seq<nat>, segments: seq<Segment>,
                              l: Ledger)
    requires Stream(k, c, lines, bases, segments) && Mirrors(k, c, lines, l)
    requires Replay(k, c.predecessor, Genesis(k, c.start), lines) == Ok(c.v)
    requires !ExpiredMinute(k.mode, segments[0], c.v.cut)
    ensures var from := segments[LastBefore(segments, c.v.cut)].base;
            from <= |l.log| && NothingOpen(l, from)
  {
    hide Replay, BelongsTo, ExpiredMinute, Messages, StateAt;
    var cut, from := c.v.cut, segments[LastBefore(segments, c.v.cut)].base;
    AllMessages(k, c.predecessor, Genesis(k, c.start), lines);
    WholeState(k, c, lines);
    FromIsInside(k, c, lines, bases, segments, cut);
    forall i | 0 <= i < from && l.log[i].Tick?
      ensures l.log[i].trade.ts < cut
    {
      if BelongsTo(k, c, lines, i, cut) {
        IndexCoversMinute(k, c, lines, bases, segments, cut, i);
      }
      EarlierMinute(k, c, lines, i, cut);
    }
  }

  lemma WholeState(k: Codec, c: Cursor, lines: seq<string>)
    requires Replay(k, c.predecessor, Genesis(k, c.start), lines) == Ok(c.v)
    ensures CutAt(k, c, lines, |lines|) == c.v.cut
  {
    assert lines[..|lines|] == lines;
  }

  lemma FromIsInside(k: Codec, c: Cursor, lines: seq<string>, bases: seq<nat>, segments: seq<Segment>, minute: int)
    requires Stream(k, c, lines, bases, segments)
    ensures segments[LastBefore(segments, minute)].base <= |lines|
  {
    hide Replay, StateAt;
    var j := LastBefore(segments, minute);
    StateGrows(k, c, lines, bases[j], bases[j]);
  }

  /** A print of an earlier minute lies before the cut. */
  lemma EarlierMinute(k: Codec, c: Cursor, lines: seq<string>, i: nat, cut: int)
    requires i < |lines| && Replay(k, c.predecessor, Genesis(k, c.start), lines).Ok?
    requires CutAt(k, c, lines, |lines|) == cut && !BelongsTo(k, c, lines, i, cut)
    ensures k.parse(lines[i]).Some?
    ensures k.parse(lines[i]).value.Tick? ==> k.parse(lines[i]).value.trade.ts < cut
  {
    hide Replay;
    StateSteps(k, c, lines, i);
    StateGrows(k, c, lines, i, |lines|);
  }

  /** Sessions stage a proof only with the `time` line of its minute, which moves the cut: every proof in the journal
      closed its own minute. */
  lemma ProofsClose(k: Codec, c: Cursor, line: string, proof: Option<Bar>)
    requires J.Staged(k, c, line, proof).Ok? && k.parse(line).Some?
    requires proof.Some? ==> k.parse(line).value.TimeCut?
    ensures proof.Some? ==> J.Staged(k, c, line, proof).value.v.cut == c.v.cut + MINUTE == proof.value.ts + MINUTE
  {
  }

  // ---------- After a crash ----------

  /** The ledger a new process reads from the recovered lines and their cursor. */
  function Reread(k: Codec, c: Cursor, lines: seq<string>): Ledger {
    Ledger(k.mode, c.start, c.predecessor, c.v, c.proofs, Messages(k, lines))
  }

  lemma {:induction false} MessagesOfPrefix(k: Codec, lines: seq<string>, n: nat)
    requires n <= |lines|
    ensures Messages(k, lines[..n]) <= Messages(k, lines)
  {
    if n < |lines| {
      MessagesOfPrefix(k, lines[..|lines| - 1], n);
      assert lines[..|lines| - 1][..n] == lines[..n];
    } else {
      assert lines[..n] == lines;
    }
  }

  lemma PrefixOnTape(tape: seq<Trade>, first: nat, l: Ledger, log: seq<Message>, closes: map<int, Kline>, sums: bool)
    requires OnTape(tape, first, l) && Closed(tape, first, l, closes, sums) && log <= l.log
    ensures Canonical(tape, Position(first, l.start), log) && Closed(tape, first, l.(log := log), closes, sums)
  {
    hide Reach, Anchored, IsBarOf;
    assert forall i :: 0 <= i < |log| ==> log[i] == l.log[i];
  }

  /** What a disk in a safe history says of its stream, seen from an earlier disk. */
  lemma CrashFacts(k: Codec, history: seq<Snapshot>, all: seq<string>, m: nat, i: nat)
    requires SafeHistory(k, history, all, true) && m <= i < |history| && history[m].disk.cursor.Some?
    ensures history[i].disk.cursor.Some? && history[i].mark.Bases() != []
    ensures var c := history[i].disk.cursor.value;
            && SameStream(history[m].disk.cursor.value, c) && ValidCursor(c) && c.v.index <= |all|
            && Replay(k, c.predecessor, Genesis(k, c.start), all[..c.v.index]) == Ok(c.v)
            && Guarded(k, c, all[..c.v.index], history[i].mark.Bases()[0], true)
  {
    hide Holds, Guarded;
    assert Safe(k, history[i], all, true) && Forward(history[m], history[i]);
  }

  /** The recovered lines are a beginning of the session's messages, with the position they verify. */
  lemma RecoveredOnTape(k: Codec, c: Cursor, all: seq<string>, tape: seq<Trade>, first: nat, l: Ledger,
                        closes: map<int, Kline>, sums: bool, from: nat)
    requires c.v.index <= |all| && Replay(k, c.predecessor, Genesis(k, c.start), all[..c.v.index]) == Ok(c.v)
    requires c.start == l.start && (l.predecessor.Some? ==> c.predecessor == l.predecessor)
    requires OnTape(tape, first, l) && Closed(tape, first, l, closes, sums)
    requires c.predecessor.Some? ==> c.predecessor == Some(tape[first - 1])
    requires l.mode == k.mode && l.log == Messages(k, all)
    requires NothingOpen(Reread(k, c, all[..c.v.index]), from)
    ensures var r := Reread(k, c, all[..c.v.index]);
            r.log <= l.log && Restartable(tape, first, r, from, closes, sums)
  {
    hide Replay, Messages, Fold, Reach, IsBarOf, NothingOpen;
    var r := Reread(k, c, all[..c.v.index]);
    MessagesOfPrefix(k, all, c.v.index);
    PrefixOnTape(tape, first, l, r.log, closes, sums);
    ReplayIsFold(k, c.predecessor, c.start, all[..c.v.index]);
  }

  /**
   * Whatever a session had staged, and wherever in its next call the process stopped: the recovered lines are again a
   * beginning of the session's own messages, and so of the tape's, and from the index the recovered table gives for
   * the open minute a session restarts on them.
   */
  lemma EveryCrashRestarts(k: Codec, history: seq<Snapshot>, all: seq<string>, m: nat, i: nat, tape: seq<Trade>,
                           first: nat, l: Ledger, closes: map<int, Kline>, sums: bool)
      returns (r: Ledger, from: nat)
    requires SafeHistory(k, history, all, true) && m <= i < |history|
    requires history[m].disk.cursor.Some? && l.start == history[m].disk.cursor.value.start
             && l.predecessor == history[m].disk.cursor.value.predecessor
    requires l.mode == k.mode && l.log == Messages(k, all)
    requires OnTape(tape, first, l) && Closed(tape, first, l, closes, sums)
    requires history[i].disk.cursor.Some? && history[i].disk.cursor.value.predecessor.Some? ==>
               history[i].disk.cursor.value.predecessor == Some(tape[first - 1])
    ensures history[i].disk.cursor.Some? && Recovery(k, history[i].disk).Ok?
    ensures var c, table := history[i].disk.cursor.value, Recovery(k, history[i].disk).value.segments;
            && history[i].mark.released <= c.v.index <= |all| && Mirrors(k, c, all[..c.v.index], r)
            && LastBefore(table, c.v.cut) < |table| && from == table[LastBefore(table, c.v.cut)].base
    ensures r.log <= l.log && Restartable(tape, first, r, from, closes, sums)
  {
    hide SafeHistory, Guarded, Recovery, Describes, Restartable, OnTape, Closed, Messages, Replay, Mirrors, NothingOpen,
         ExpiredMinute, JournalRecovery.Joined, Bytes;
    CrashFacts(k, history, all, m, i);
    JournalRecovery.EveryCrashRecovers(k, history, all, true, i);
    var c, bases := history[i].disk.cursor.value, history[i].mark.Bases();
    var table, lines := Recovery(k, history[i].disk).value.segments, all[..c.v.index];
    r := Reread(k, c, lines);
    IsMirror(k, c, lines);
    ProtectedWindowRetained(k, c, lines, bases, table, c.v.cut);
    IndexSkipsNothingOpen(k, c, lines, bases, table, r);
    TableIsThere(k, c, lines, bases, table);
    from := table[LastBefore(table, c.v.cut)].base;
    PredecessorOnTape(tape, first, l);
    RecoveredOnTape(k, c, all, tape, first, l, closes, sums, from);
  }

  lemma IsMirror(k: Codec, c: Cursor, lines: seq<string>)
    ensures Mirrors(k, c, lines, Reread(k, c, lines))
  {
  }

  lemma TableIsThere(k: Codec, c: Cursor, lines: seq<string>, bases: seq<nat>, table: seq<Segment>)
    requires Describes(k, c, lines, bases, table) && bases != []
    ensures table != []
  {
  }

  lemma PredecessorOnTape(tape: seq<Trade>, first: nat, l: Ledger)
    requires OnTape(tape, first, l)
    ensures 0 < first <= |tape| && (l.predecessor.Some? ==> l.predecessor == Some(tape[first - 1]))
  {
  }
}
