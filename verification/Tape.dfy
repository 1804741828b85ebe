/** The venue's print sequence, and the one message log it determines. */
module Tape {
  import opened Feed

  /** Prints contiguous in ID and nondecreasing in time. */
  ghost predicate ValidTape(tape: seq<Trade>) {
    && (forall i :: 0 <= i < |tape| ==> tape[i].Valid() && tape[i].id == tape[0].id + i)
    && (forall i, j :: 0 <= i <= j < |tape| ==> tape[i].ts <= tape[j].ts)
  }

  /** `tape[first - 1]` is the last print strictly before the start, and a print at or after it exists. */
  ghost predicate Anchored(tape: seq<Trade>, start: int, first: nat) {
    && ValidTape(tape) && 0 < first < |tape|
    && tape[first - 1].ts < start <= tape[first].ts
  }

  /** The next print to emit and the open minute. */
  datatype Position = Position(next: nat, cut: int)

  /** What the tape says next: a print of the open minute, else the proof that the minute is complete. */
  function Next(tape: seq<Trade>, p: Position): Message
    requires p.next < |tape|
  {
    if tape[p.next].ts < p.cut + MINUTE then Tick(tape[p.next]) else TimeCut(p.cut + MINUTE)
  }

  function Moved(tape: seq<Trade>, p: Position): Position {
    if p.next >= |tape| then p
    else if tape[p.next].ts < p.cut + MINUTE then Position(p.next + 1, p.cut)
    else Position(p.next, p.cut + MINUTE)
  }

  function Reach(tape: seq<Trade>, from: Position, n: nat): Position {
    if n == 0 then from else Moved(tape, Reach(tape, from, n - 1))
  }

  /** The log is the beginning of the tape's only message sequence. */
  ghost predicate Canonical(tape: seq<Trade>, from: Position, log: seq<Message>) {
    forall k :: 0 <= k < |log| ==> Reach(tape, from, k).next < |tape| && log[k] == Next(tape, Reach(tape, from, k))
  }

  lemma CanonicalExtends(tape: seq<Trade>, from: Position, log: seq<Message>)
    requires Canonical(tape, from, log) && Reach(tape, from, |log|).next < |tape|
    ensures Canonical(tape, from, log + [Next(tape, Reach(tape, from, |log|))])
  {
  }

  lemma CanonicalFront(tape: seq<Trade>, from: Position, log: seq<Message>)
    requires Canonical(tape, from, log) && log != []
    ensures var n := |log| - 1;
            && Canonical(tape, from, log[..n]) && Reach(tape, from, n).next < |tape|
            && log == log[..n] + [Next(tape, Reach(tape, from, n))]
  {
  }

  /** However events were ordered, duplicated or lost, two sessions on one tape never disagree. */
  lemma SessionsAgree(tape: seq<Trade>, from: Position, a: seq<Message>, b: seq<Message>)
    requires Canonical(tape, from, a) && Canonical(tape, from, b) && |a| <= |b|
    ensures a <= b
  {
  }

  function PrintsIn(log: seq<Message>): seq<Trade> {
    if log == [] then []
    else
      var front := PrintsIn(log[..|log| - 1]);
      if log[|log| - 1].Tick? then front + [log[|log| - 1].trade] else front
  }

  lemma {:induction false} ReachMonotone(tape: seq<Trade>, from: Position, m: nat, n: nat)
    requires m <= n
    ensures Reach(tape, from, m).next <= Reach(tape, from, n).next
            && Reach(tape, from, m).cut <= Reach(tape, from, n).cut
    ensures from.next <= |tape| ==> Reach(tape, from, n).next <= |tape|
    decreases n
  {
    if m < n {
      ReachMonotone(tape, from, m, n - 1);
    } else if n > 0 {
      ReachMonotone(tape, from, 0, n - 1);
    }
  }

  /** The log's prints are exactly the tape's prints after the predecessor, in order, with no gap and no duplicate. */
  lemma {:induction false} PrintsAreContiguous(tape: seq<Trade>, from: Position, log: seq<Message>)
    requires Canonical(tape, from, log) && from.next <= |tape|
    ensures from.next <= Reach(tape, from, |log|).next <= |tape|
    ensures PrintsIn(log) == tape[from.next..Reach(tape, from, |log|).next]
    decreases |log|
  {
    ReachMonotone(tape, from, 0, |log|);
    if log != [] {
      CanonicalFront(tape, from, log);
      hide Canonical;
      var n := |log| - 1;
      PrintsAreContiguous(tape, from, log[..n]);
      assert log[n] == Next(tape, Reach(tape, from, n));
    }
  }

  /** At any point, exactly the prints before the open minute's end that were reached lie before the cut or in the
      minute. */
  lemma {:induction false} PrintsBeforeCut(tape: seq<Trade>, start: int, first: nat, n: nat, j: nat)
    requires Anchored(tape, start, first)
    requires first <= j < Reach(tape, Position(first, start), n).next <= |tape|
    ensures tape[j].ts < Reach(tape, Position(first, start), n).cut + MINUTE
    decreases n
  {
    if n > 0 {
      ReachMonotone(tape, Position(first, start), 0, n - 1);
      if j < Reach(tape, Position(first, start), n - 1).next {
        PrintsBeforeCut(tape, start, first, n - 1, j);
      }
    }
  }

  /** A `time` line is emitted only after every print before it, and before every print at or after it. */
  lemma TimeLineIsComplete(tape: seq<Trade>, start: int, first: nat, log: seq<Message>, k: nat, j: nat)
    requires Anchored(tape, start, first) && Canonical(tape, Position(first, start), log)
    requires k < |log| && log[k].TimeCut? && first <= j < |tape|
    ensures var done := Reach(tape, Position(first, start), k).next;
            && first <= done <= |tape| && PrintsIn(log[..k]) == tape[first..done]
            && (j < done <==> tape[j].ts < log[k].cut)
  {
    var from := Position(first, start);
    assert Canonical(tape, from, log[..k]);
    PrintsAreContiguous(tape, from, log[..k]);
    var done := Reach(tape, from, k).next;
    assert log[k] == Next(tape, Reach(tape, from, k));
    if j < done {
      PrintsBeforeCut(tape, start, first, k, j);
    } else {
      assert tape[done].ts <= tape[j].ts;
    }
  }

  // ---------- One minute of the tape ----------

  /** The prints with a time in [lo, hi). */
  function Between(prints: seq<Trade>, lo: int, hi: int): seq<Trade> {
    if prints == [] then []
    else
      var front := Between(prints[..|prints| - 1], lo, hi);
      if lo <= prints[|prints| - 1].ts < hi then front + [prints[|prints| - 1]] else front
  }

  function MinuteOf(prints: seq<Trade>, minute: int): seq<Trade> { Between(prints, minute, minute + MINUTE) }

  /** When the prints in a time range are one run of the sequence, the range selects that run. */
  lemma {:induction false} BetweenIsRun(prints: seq<Trade>, lo: int, hi: int, i: nat, j: nat)
    requires i <= j <= |prints|
    requires forall k :: 0 <= k < |prints| ==> (lo <= prints[k].ts < hi <==> i <= k < j)
    ensures Between(prints, lo, hi) == prints[i..j]
    decreases |prints|
  {
    if prints != [] {
      var front := prints[..|prints| - 1];
      if j < |prints| {
        BetweenIsRun(front, lo, hi, i, j);
      } else if i == j {
        BetweenIsRun(front, lo, hi, i - 1, j - 1);
      } else {
        BetweenIsRun(front, lo, hi, i, j - 1);
        assert prints[i..j] == front[i..j - 1] + [prints[j - 1]];
      }
    }
  }

  lemma {:induction false} BetweenFront(prints: seq<Trade>, lo: int, hi: int, n: nat)
    requires n <= |prints| && forall k :: n <= k < |prints| ==> prints[k].ts >= hi
    ensures Between(prints, lo, hi) == Between(prints[..n], lo, hi)
    decreases |prints|
  {
    if n < |prints| {
      assert prints[..|prints| - 1][..n] == prints[..n];
      BetweenFront(prints[..|prints| - 1], lo, hi, n);
    } else {
      assert prints[..n] == prints;
    }
  }
}
