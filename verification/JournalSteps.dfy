/** How each durable step of commit, seal and expiry moves a clean disk, and why every disk in between recovers. */
module JournalSteps {
  import opened Feed
  import opened JournalFormat
  import opened Volumes

  /** No step is in progress: exactly the retained segments and checkpoints, and no uncommitted byte. */
  ghost predicate Clean(k: Codec, d: Disk, c: Cursor, log: seq<string>, bases: seq<nat>) {
    && d.cursor == Some(c) && ValidCursor(c)
    && Content(k, d, c, log, bases)
    && (forall base :: base in d.segments ==> base in bases)
    && (forall base :: base in d.checkpoints ==> base in bases)
    && c.segment in d.segments && d.segments[c.segment] == Bytes(log[c.segment..])
  }

  // ---------- The protected window ----------

  /** The start of the window retention never drops: the oldest closed-minute proof, else the open minute. */
  function ProtectedStart(c: Cursor): int {
    if c.proofs == [] || c.v.cut <= c.proofs[0].ts then c.v.cut else c.proofs[0].ts
  }

  ghost predicate AscendingProofs(c: Cursor) {
    && (forall i, j :: 0 <= i < j < |c.proofs| ==> c.proofs[i].ts < c.proofs[j].ts)
    && (forall i :: 0 <= i < |c.proofs| ==> c.proofs[i].ts + MINUTE <= c.v.cut)
  }

  /** The window begins no later than the open minute and every minute a proof is held of, and with one of them. */
  lemma ProtectedStartIs(c: Cursor)
    requires AscendingProofs(c)
    ensures ProtectedStart(c) <= c.v.cut && forall i :: 0 <= i < |c.proofs| ==> ProtectedStart(c) <= c.proofs[i].ts
    ensures ProtectedStart(c) == c.v.cut || exists i :: 0 <= i < |c.proofs| && ProtectedStart(c) == c.proofs[i].ts
  {
    if c.proofs != [] {
      assert c.proofs[0].ts + MINUTE <= c.v.cut;
    }
  }

  /** The newest print does not lie before the first retained segment, and, as long as every proof closed its own
      minute, nothing of the protected window does. */
  ghost predicate Guarded(k: Codec, c: Cursor, log: seq<string>, first: nat, closing: bool) {
    && first <= |log| && StateAt(k, c, log, first).Ok?
    && var v := StateAt(k, c, log, first).value;
    && (k.mode.TickMode() && c.v.lastId != 0 ==> v.lastId < c.v.lastId)
    && (closing ==> AscendingProofs(c) && (first == 0 || v.cut < ProtectedStart(c)))
  }

  // ---------- Crash safety ----------

  /** Before the first cursor nothing was committed; afterwards the disk recovers to a prefix of `all` that holds every
      message released so far, and its files hold that prefix from the first line retention has not given up, with the
      newest print, and with the protected window when every proof closed its own minute. */
  ghost predicate Safe(k: Codec, s: Snapshot, all: seq<string>, closing: bool) {
    match s.disk.cursor
    case None => s.mark == Mark(0, [], 0) && forall base :: base in s.disk.segments ==> s.disk.segments[base] == ""
    case Some(c) =>
      && s.mark.Valid() && s.mark.released <= c.v.index <= |all|
      && Recoverable(k, s.disk, all[..c.v.index], s.mark.Bases())
      && Guarded(k, c, all[..c.v.index], s.mark.First(), closing)
  }

  /** The cursor on disk commits `size` lines. */
  predicate Persisted(d: Disk, size: nat) { d.cursor.Some? && d.cursor.value.v.index == size }

  /** A later cursor belongs to the same stream; its predecessor is anchored once, before the first line. */
  predicate SameStream(c: Cursor, n: Cursor) {
    && n.epoch == c.epoch && n.start == c.start
    && (c.predecessor.Some? || c.v.index > 0 ==> n.predecessor == c.predecessor)
  }

  /** What the cursor on disk commits stays committed, in the same stream. */
  predicate Committed(d: Disk, e: Disk) {
    d.cursor.Some? ==> e.cursor.Some? && d.cursor.value.v.index <= e.cursor.value.v.index
                       && SameStream(d.cursor.value, e.cursor.value)
  }

  /** The number of committed lines never falls, and neither do the marks. */
  ghost predicate Forward(s: Snapshot, t: Snapshot) {
    s.mark.UpTo(t.mark) && Committed(s.disk, t.disk)
  }

  ghost predicate SafeHistory(k: Codec, history: seq<Snapshot>, all: seq<string>, closing: bool) {
    && (forall i :: 0 <= i < |history| ==> Safe(k, history[i], all, closing))
    && forall i, j :: 0 <= i <= j < |history| ==> Forward(history[i], history[j])
  }

  lemma SafeGrows(k: Codec, s: Snapshot, all: seq<string>, more: seq<string>, closing: bool, still: bool)
    requires Safe(k, s, all, closing) && all <= more && (still ==> closing)
    ensures Safe(k, s, more, still)
  {
    hide Recoverable, StateAt, AscendingProofs, ProtectedStart;
    if s.disk.cursor.Some? {
      var n := s.disk.cursor.value.v.index;
      assert all[..n] == more[..n];
    }
  }

  lemma SafeHistoryGrows(k: Codec, history: seq<Snapshot>, all: seq<string>, more: seq<string>, closing: bool,
                         still: bool)
    requires SafeHistory(k, history, all, closing) && all <= more && (still ==> closing)
    ensures SafeHistory(k, history, more, still)
  {
    hide Safe, Forward;
    forall i | 0 <= i < |history|
      ensures Safe(k, history[i], more, still)
    {
      SafeGrows(k, history[i], all, more, closing, still);
    }
  }

  lemma RecoverableIsSafe(k: Codec, s: Snapshot, all: seq<string>, log: seq<string>, closing: bool)
    requires s.mark.Valid() && s.mark.released <= |log| && log <= all
    requires Recoverable(k, s.disk, log, s.mark.Bases())
    requires Guarded(k, s.disk.cursor.value, log, s.mark.First(), closing)
    ensures Safe(k, s, all, closing) && s.disk.cursor.Some? && s.disk.cursor.value.v.index == |log|
  {
    var c := s.disk.cursor.value;
    ReplayCounts(k, c.predecessor, Genesis(k, c.start), log);
    assert all[..c.v.index] == log;
  }

  /** The marks and the cursor may move on from this snapshot. */
  ghost predicate From(s: Snapshot, to: Mark, n: Cursor) {
    && s.mark.UpTo(to)
    && (s.disk.cursor.Some? ==> s.disk.cursor.value.v.index <= n.v.index && SameStream(s.disk.cursor.value, n))
  }

  /** New snapshots of recoverable disks keep the history safe. */
  lemma HistoryStep(k: Codec, before: seq<Snapshot>, after: seq<Snapshot>, disks: iset<Disk>, n: Cursor, to: Mark,
                    all: seq<string>, log: seq<string>, closing: bool)
    requires before != [] && SafeHistory(k, before, all, closing) && before <= after
    requires forall i :: |before| <= i < |after| ==> after[i].mark == to && after[i].disk in disks
    requires to.Valid() && to.released <= |log| && log <= all && From(before[|before| - 1], to, n)
    requires Guarded(k, n, log, to.First(), closing)
    requires forall d :: d in disks ==> Recoverable(k, d, log, to.Bases()) && d.cursor == Some(n)
    ensures SafeHistory(k, after, all, closing)
    ensures Committed(before[|before| - 1].disk, after[|after| - 1].disk)
    ensures |after| > |before| ==> Persisted(after[|after| - 1].disk, |log|)
  {
    hide Safe, Guarded, Recoverable;
    var last := before[|before| - 1];
    forall i | 0 <= i < |after|
      ensures Safe(k, after[i], all, closing)
      ensures i >= |before| ==> after[i].disk.cursor == Some(n) && n.v.index == |log|
    {
      if i < |before| {
        assert after[i] == before[i];
      } else {
        RecoverableIsSafe(k, after[i], all, log, closing);
      }
    }
    forall i, j | 0 <= i <= j < |after|
      ensures Forward(after[i], after[j])
    {
      assert i < |before| ==> after[i] == before[i] && Forward(before[i], last);
      assert j < |before| ==> after[j] == before[j];
    }
  }

  /** One step adds at most one kind of snapshot. */
  ghost predicate Adds(before: seq<Snapshot>, after: seq<Snapshot>, next: Snapshot) {
    before != [] && before <= after && forall i :: |before| <= i < |after| ==> after[i] == next
  }

  lemma HistoryOnce(k: Codec, before: seq<Snapshot>, after: seq<Snapshot>, next: Snapshot, all: seq<string>,
                    log: seq<string>, closing: bool)
    requires SafeHistory(k, before, all, closing) && Adds(before, after, next)
    requires next.mark.Valid() && next.mark.released <= |log| && log <= all
             && next.disk.cursor.Some? && From(before[|before| - 1], next.mark, next.disk.cursor.value)
    requires Recoverable(k, next.disk, log, next.mark.Bases())
    requires Guarded(k, next.disk.cursor.value, log, next.mark.First(), closing)
    ensures SafeHistory(k, after, all, closing)
    ensures Committed(before[|before| - 1].disk, after[|after| - 1].disk)
    ensures |after| > |before| ==> Persisted(after[|after| - 1].disk, |log|)
  {
    hide SafeHistory, Recoverable, Guarded, From;
    HistoryStep(k, before, after, iset{next.disk}, next.disk.cursor.value, next.mark, all, log, closing);
  }

  // ---------- What a reader sees of a run ----------

  /** Behind a successor the cursor does not name yet, the open segment holds exactly the committed lines. */
  ghost predicate Visible(d: Disk, all: seq<string>) {
    && d.cursor.Some?
    && var c := d.cursor.value;
    && c.segment <= c.v.index <= |all|
    && (c.segment < c.v.index && c.v.index in d.segments ==>
          c.segment in d.segments && d.segments[c.segment] == Bytes(all[c.segment..c.v.index]))
  }

  /** One step seen from outside: bytes are only appended, a segment begins empty at the committed head, which the
      cursor may name next, and only a sealed segment goes. */
  ghost predicate Observed(s: Snapshot, t: Snapshot) {
    && s.disk.cursor.Some? && t.disk.cursor.Some?
    && var c, n := s.disk.cursor.value, t.disk.cursor.value;
    && (t.mark.begun == s.mark.begun || (t.mark.begun == s.mark.begun + [c.v.index] && n.v.index == c.v.index))
    && (forall base :: base in t.disk.segments ==>
                         if base in s.disk.segments then s.disk.segments[base] <= t.disk.segments[base]
                         else base == c.v.index)
    && forall base :: base in s.disk.segments ==> base in t.disk.segments || base < c.segment
  }

  /** The snapshots since `from` are those of one process. */
  ghost predicate Running(history: seq<Snapshot>, from: nat, all: seq<string>) {
    && from < |history|
    && (forall i :: from <= i < |history| ==> Visible(history[i].disk, all))
    && forall i, j :: from <= i && j == i + 1 && j < |history| ==> Observed(history[i], history[j])
  }

  lemma RunGrows(history: seq<Snapshot>, from: nat, all: seq<string>, more: seq<string>)
    requires Running(history, from, all) && all <= more
    ensures Running(history, from, more)
  {
    hide Observed;
    forall i | from <= i < |history|
      ensures Visible(history[i].disk, more)
    {
      var c := history[i].disk.cursor.value;
      assert all[c.segment..c.v.index] == more[c.segment..c.v.index];
    }
  }

  lemma RunStep(before: seq<Snapshot>, after: seq<Snapshot>, from: nat, all: seq<string>)
    requires Running(before, from, all) && before <= after
    requires forall i :: |before| <= i < |after| ==> Visible(after[i].disk, all)
    requires forall i, j :: |before| - 1 <= i && j == i + 1 && j < |after| ==> Observed(after[i], after[j])
    ensures Running(after, from, all)
  {
    hide Visible, Observed;
    forall i, j | from <= i && j == i + 1 && j < |after|
      ensures Observed(after[i], after[j])
    {
      assert i < |before| ==> after[i] == before[i];
      assert j < |before| ==> after[j] == before[j];
    }
    assert forall i :: 0 <= i < |before| ==> after[i] == before[i];
  }

  lemma RunOnce(before: seq<Snapshot>, after: seq<Snapshot>, from: nat, all: seq<string>, next: Snapshot)
    requires Running(before, from, all) && Adds(before, after, next)
    requires Visible(next.disk, all) && Observed(before[|before| - 1], next)
    ensures Running(after, from, all)
  {
    hide Visible, Running;
    assert Observed(next, next);
    hide Observed;
    assert |before| > 0 && after[|before| - 1] == before[|before| - 1] by {
      RunLength(before, from, all);
    }
    RunStep(before, after, from, all);
  }

  lemma RunLength(history: seq<Snapshot>, from: nat, all: seq<string>)
    requires Running(history, from, all)
    ensures from < |history| && Visible(history[|history| - 1].disk, all)
  {
  }

  /** Steps that touch neither the cursor nor a segment. */
  lemma RunSame(before: seq<Snapshot>, after: seq<Snapshot>, from: nat, all: seq<string>)
    requires Running(before, from, all) && before <= after
    requires var last := before[|before| - 1];
             forall i :: |before| <= i < |after| ==>
               && after[i].mark.begun == last.mark.begun && after[i].disk.cursor == last.disk.cursor
               && after[i].disk.segments == last.disk.segments
    ensures Running(after, from, all)
  {
    RunLength(before, from, all);
    hide Running;
    RunStep(before, after, from, all);
  }

  /** The files of a clean disk, none of them begun behind the cursor. */
  lemma NothingBehind(k: Codec, d: Disk, c: Cursor, log: seq<string>, bases: seq<nat>)
    requires Clean(k, d, c, log, bases)
    ensures d.cursor == Some(c) && c.segment in d.segments && c.v.index == |log| && c.segment <= |log|
    ensures forall base :: base in d.segments ==> base <= c.segment
    ensures |bases| > 1 ==> bases[0] < c.segment
    ensures d.segments[c.segment] == Bytes(log[c.segment..])
  {
    ReplayCounts(k, c.predecessor, Genesis(k, c.start), log);
  }

  lemma AppendRuns(k: Codec, before: seq<Snapshot>, after: seq<Snapshot>, from: nat, all: seq<string>, d: Disk,
                   c: Cursor, log: seq<string>, bases: seq<nat>, bytes: string)
    requires Running(before, from, all) && before <= after && before[|before| - 1].disk == d
    requires Clean(k, d, c, log, bases) && log <= all && c.segment in d.segments
    requires forall i :: |before| <= i < |after| ==>
               && after[i].mark == before[|before| - 1].mark
               && exists n :: 0 <= n <= |bytes| && after[i].disk == Appended(d, c.segment, bytes[..n])
    requires Ascends(after, |before| - 1, c.segment)
    ensures Running(after, from, all)
  {
    NothingBehind(k, d, c, log, bases);
    RunLength(before, from, all);
    hide Clean, Running;
    AppendedNothing(d, c.segment);
    assert bytes[..0] == "";
    forall i, j | |before| - 1 <= i && j == i + 1 && j < |after|
      ensures Observed(after[i], after[j])
    {
      var m: nat :| m <= |bytes| && after[i].disk == Appended(d, c.segment, bytes[..m]);
      var n: nat :| n <= |bytes| && after[j].disk == Appended(d, c.segment, bytes[..n]);
      assert |after[i].disk.segments[c.segment]| <= |after[j].disk.segments[c.segment]|;
      assert bytes[..m] == bytes[..n][..m];
    }
    RunStep(before, after, from, all);
  }

  /** A cursor written over unchanged segments. */
  lemma CursorRuns(before: seq<Snapshot>, after: seq<Snapshot>, from: nat, all: seq<string>, n: Cursor, to: Mark)
    requires Running(before, from, all) && before != []
    requires var last := before[|before| - 1];
             && last.disk.cursor.Some? && n.segment <= n.v.index <= |all|
             && (to.begun == last.mark.begun
                 || (to.begun == last.mark.begun + [n.v.index] && last.disk.cursor.value.v.index == n.v.index))
             && (n.segment < n.v.index ==> n.v.index !in last.disk.segments)
             && Adds(before, after, Snapshot(last.disk.(cursor := Some(n)), to))
    ensures Running(after, from, all)
  {
    RunLength(before, from, all);
    hide Running;
    RunOnce(before, after, from, all, Snapshot(before[|before| - 1].disk.(cursor := Some(n)), to));
  }

  lemma CleanIsRecoverable(k: Codec, d: Disk, c: Cursor, log: seq<string>, bases: seq<nat>)
    requires Clean(k, d, c, log, bases)
    ensures Recoverable(k, d, log, bases)
  {
  }

  /** Files that agree on the retained bases hold the same content. */
  lemma SameContent(k: Codec, d: Disk, e: Disk, c: Cursor, log: seq<string>, bases: seq<nat>)
    requires Content(k, d, c, log, bases)
    requires forall base :: base in bases ==> base in e.segments && base in e.checkpoints
    requires forall base :: base in bases && base in d.checkpoints ==> e.checkpoints[base] == d.checkpoints[base]
    requires forall base :: base in bases && base in d.segments && base != c.segment ==>
             e.segments[base] == d.segments[base]
    requires Bytes(log[c.segment..]) <= e.segments[c.segment]
    ensures Content(k, e, c, log, bases)
  {
    forall i | 0 <= i < |bases|
      ensures Holds(k, e, c, log, bases, i)
    {
      assert Holds(k, d, c, log, bases, i);
      assert i + 1 == |bases| ==> log[bases[i]..|log|] == log[c.segment..];
    }
  }

  lemma CleanFiles(k: Codec, d: Disk, c: Cursor, log: seq<string>, bases: seq<nat>)
    requires Clean(k, d, c, log, bases)
    ensures forall base :: base in bases <==> base in d.segments
    ensures forall base :: base in bases <==> base in d.checkpoints
    ensures d.cursor == Some(c)
    ensures c.segment in bases && forall base :: base in bases ==> base <= c.segment
  {
    ContentFiles(k, d, c, log, bases);
  }

  // ---------- Commit: append, then the cursor ----------

  lemma AppendKeeps(k: Codec, d: Disk, c: Cursor, log: seq<string>, bases: seq<nat>, bytes: string)
    requires Clean(k, d, c, log, bases)
    ensures Recoverable(k, Appended(d, c.segment, bytes), log, bases)
  {
    CleanFiles(k, d, c, log, bases);
    SameContent(k, d, Appended(d, c.segment, bytes), c, log, bases);
  }

  /** The cursor a commit writes. */
  ghost predicate Follows(k: Codec, c: Cursor, next: Cursor, staged: seq<string>) {
    && next.epoch == c.epoch && next.start == c.start && next.predecessor == c.predecessor && next.segment == c.segment
    && ValidLines(staged) && Replay(k, c.predecessor, c.v, staged) == Ok(next.v)
  }

  lemma CommitMoves(k: Codec, d: Disk, c: Cursor, log: seq<string>, bases: seq<nat>, next: Cursor, staged: seq<string>)
    requires Clean(k, d, c, log, bases)
    requires Follows(k, c, next, staged) && ValidCursor(next)
    ensures Clean(k, Appended(d, c.segment, Bytes(staged)).(cursor := Some(next)), next, log + staged, bases)
  {
    CommitContent(k, d, c, log, bases, next, staged);
    OpenBytes(log, staged, c.segment);
  }

  lemma CommitContent(k: Codec, d: Disk, c: Cursor, log: seq<string>, bases: seq<nat>, next: Cursor,
                      staged: seq<string>)
    requires Clean(k, d, c, log, bases) && Follows(k, c, next, staged)
    ensures Content(k, Appended(d, c.segment, Bytes(staged)).(cursor := Some(next)), next, log + staged, bases)
  {
    ReplayConcat(k, c.predecessor, Genesis(k, c.start), log, staged);
    forall i | 0 <= i < |bases|
      ensures Holds(k, Appended(d, c.segment, Bytes(staged)).(cursor := Some(next)), next, log + staged, bases, i)
    {
      CommitHolds(k, d, c, log, bases, next, staged, i);
    }
  }

  lemma OpenBytes(log: seq<string>, staged: seq<string>, base: nat)
    requires base <= |log|
    ensures Bytes((log + staged)[base..]) == Bytes(log[base..]) + Bytes(staged)
  {
    assert (log + staged)[base..] == log[base..] + staged;
    BytesConcat(log[base..], staged);
  }

  lemma CommitHolds(k: Codec, d: Disk, c: Cursor, log: seq<string>, bases: seq<nat>, next: Cursor, staged: seq<string>,
                    i: nat)
    requires Clean(k, d, c, log, bases) && Follows(k, c, next, staged) && i < |bases|
    ensures Holds(k, Appended(d, c.segment, Bytes(staged)).(cursor := Some(next)), next, log + staged, bases, i)
  {
    var all := log + staged;
    assert Holds(k, d, c, log, bases, i);
    assert all[..bases[i]] == log[..bases[i]];
    if i + 1 < |bases| {
      assert all[bases[i]..bases[i + 1]] == log[bases[i]..bases[i + 1]];
    } else {
      OpenBytes(log, staged, c.segment);
      assert all[bases[i]..|all|] == all[c.segment..];
    }
  }

  // ---------- Seal: successor's checkpoint, empty successor, cursor ----------

  /** Files of an interrupted seal at the committed end. */
  ghost predicate Sealing(d: Disk, e: Disk, c: Cursor, size: nat) {
    && e.cursor == d.cursor
    && (forall base :: base in d.segments <==> base in e.segments && base != size)
    && (forall base :: base in d.segments ==> e.segments[base] == d.segments[base])
    && (size in e.segments ==> e.segments[size] == "")
    && (forall base :: base in d.checkpoints <==> base in e.checkpoints && base != size)
    && (forall base :: base in d.checkpoints ==> e.checkpoints[base] == d.checkpoints[base])
  }

  lemma SealKeeps(k: Codec, d: Disk, e: Disk, c: Cursor, log: seq<string>, bases: seq<nat>)
    requires Clean(k, d, c, log, bases) && c.segment < |log|
    requires Sealing(d, e, c, |log|)
    ensures Recoverable(k, e, log, bases)
  {
    CleanFiles(k, d, c, log, bases);
    SameContent(k, d, e, c, log, bases);
  }

  lemma SealMoves(k: Codec, d: Disk, e: Disk, c: Cursor, log: seq<string>, bases: seq<nat>)
    requires Clean(k, d, c, log, bases) && c.segment < |log|
    requires Sealing(d, e, c, |log|) && |log| in e.segments && |log| in e.checkpoints
    requires e.checkpoints[|log|] == Checkpoint(c.epoch, c.start, c.predecessor, c.v)
    ensures Clean(k, e.(cursor := Some(c.(segment := |log|))), c.(segment := |log|), log, bases + [|log|])
  {
    SealContent(k, d, e, c, log, bases);
    assert log[|log|..] == [];
    assert forall base :: base in bases ==> base in bases + [|log|];
    assert |log| in bases + [|log|];
    ReplayCounts(k, c.predecessor, Genesis(k, c.start), log);
  }

  lemma SealContent(k: Codec, d: Disk, e: Disk, c: Cursor, log: seq<string>, bases: seq<nat>)
    requires Clean(k, d, c, log, bases) && c.segment < |log|
    requires Sealing(d, e, c, |log|) && |log| in e.segments && |log| in e.checkpoints
    requires e.checkpoints[|log|] == Checkpoint(c.epoch, c.start, c.predecessor, c.v)
    ensures Content(k, e.(cursor := Some(c.(segment := |log|))), c.(segment := |log|), log, bases + [|log|])
  {
    hide Clean, Holds, Bytes, StateAt, Replay, ValidLines;
    CleanParts(k, d, c, log, bases);
    forall i | 0 <= i < |bases + [|log|]|
      ensures Holds(k, e.(cursor := Some(c.(segment := |log|))), c.(segment := |log|), log, bases + [|log|], i)
    {
      SealHolds(k, d, e, c, log, bases, i);
    }
  }

  lemma CleanParts(k: Codec, d: Disk, c: Cursor, log: seq<string>, bases: seq<nat>)
    requires Clean(k, d, c, log, bases)
    ensures ValidLines(log) && Replay(k, c.predecessor, Genesis(k, c.start), log) == Ok(c.v)
    ensures Boundaries(bases, c, |log|)
  {
  }

  lemma SealHolds(k: Codec, d: Disk, e: Disk, c: Cursor, log: seq<string>, bases: seq<nat>, i: nat)
    requires Clean(k, d, c, log, bases) && c.segment < |log| && i <= |bases|
    requires Sealing(d, e, c, |log|) && |log| in e.segments && |log| in e.checkpoints
    requires e.checkpoints[|log|] == Checkpoint(c.epoch, c.start, c.predecessor, c.v)
    ensures Holds(k, e.(cursor := Some(c.(segment := |log|))), c.(segment := |log|), log, bases + [|log|], i)
  {
    hide Bytes, Replay, ValidLines, ValidCursor;
    if i < |bases| {
      SealedHolds(k, d, e, c, log, bases, i);
    } else {
      assert log[..|log|] == log && log[|log|..|log|] == [];
      NoBytes();
    }
  }

  lemma SealedHolds(k: Codec, d: Disk, e: Disk, c: Cursor, log: seq<string>, bases: seq<nat>, i: nat)
    requires Clean(k, d, c, log, bases) && c.segment < |log| && i < |bases| && Sealing(d, e, c, |log|)
    ensures bases[i] <= End(bases + [|log|], i, |log|) <= |log|
    ensures Holds(k, e.(cursor := Some(c.(segment := |log|))), c.(segment := |log|), log, bases + [|log|], i)
  {
    hide Bytes, Replay, ValidLines, ValidCursor;
    CleanFiles(k, d, c, log, bases);
    assert Holds(k, d, c, log, bases, i);
    assert i + 1 == |bases| ==> log[bases[i]..|log|] == log[c.segment..];
    assert StateAt(k, c.(segment := |log|), log, bases[i]) == StateAt(k, c, log, bases[i]);
  }

  function Named(c: Cursor): Checkpoint {
    Checkpoint(c.epoch, c.start, c.predecessor, c.v)
  }

  function Created(d: Disk, c: Cursor, size: nat): Disk {
    Renamed(d, size, Named(c)).(segments := d.segments[size := ""])
  }

  /** Every disk of a seal recovers, and the last one is clean with one more segment. */
  lemma SealSteps(k: Codec, d: Disk, c: Cursor, log: seq<string>, bases: seq<nat>)
    requires Clean(k, d, c, log, bases) && c.segment < |log|
    ensures d.cursor == Some(c)
    ensures Recoverable(k, Written(d, |log|), log, bases)
    ensures Recoverable(k, Renamed(d, |log|, Named(c)), log, bases)
    ensures Recoverable(k, Created(d, c, |log|), log, bases)
    ensures var next := c.(segment := |log|);
            && Clean(k, Created(d, c, |log|).(cursor := Some(next)), next, log, bases + [|log|])
            && Recoverable(k, Created(d, c, |log|).(cursor := Some(next)), log, bases + [|log|])
  {
    hide Clean, Recoverable;
    CleanFiles(k, d, c, log, bases);
    SealFiles(d, c, |log|);
    SealKeeps(k, d, Written(d, |log|), c, log, bases);
    SealKeeps(k, d, Renamed(d, |log|, Named(c)), c, log, bases);
    SealKeeps(k, d, Created(d, c, |log|), c, log, bases);
    SealMoves(k, d, Created(d, c, |log|), c, log, bases);
    var next := c.(segment := |log|);
    CleanIsRecoverable(k, Created(d, c, |log|).(cursor := Some(next)), next, log, bases + [|log|]);
  }

  lemma SealFiles(d: Disk, c: Cursor, size: nat)
    requires size !in d.segments && size !in d.checkpoints
    ensures Sealing(d, Written(d, size), c, size)
    ensures Sealing(d, Renamed(d, size, Named(c)), c, size)
    ensures Sealing(d, Created(d, c, size), c, size)
  {
  }

  lemma CreateRuns(k: Codec, before: seq<Snapshot>, after: seq<Snapshot>, from: nat, all: seq<string>, d: Disk,
                   c: Cursor, log: seq<string>, bases: seq<nat>)
    requires Running(before, from, all) && before != []
    requires Clean(k, d, c, log, bases) && log <= all && c.segment < |log|
    requires before[|before| - 1].disk == Renamed(d, |log|, Named(c))
    requires Adds(before, after, Snapshot(Created(d, c, |log|), before[|before| - 1].mark))
    ensures Running(after, from, all)
  {
    NothingBehind(k, d, c, log, bases);
    RunLength(before, from, all);
    hide Clean, Running;
    assert log[c.segment..] == all[c.segment..|log|];
    RunOnce(before, after, from, all, Snapshot(Created(d, c, |log|), before[|before| - 1].mark));
  }

  // ---------- Expire: the oldest segment, then its checkpoint ----------

  lemma ExpireKeeps(k: Codec, d: Disk, c: Cursor, log: seq<string>, bases: seq<nat>)
    requires Clean(k, d, c, log, bases) && |bases| > 1
    ensures Recoverable(k, d.(segments := d.segments - {bases[0]}), log, bases[1..])
    ensures Clean(k, d.(segments := d.segments - {bases[0]}, checkpoints := d.checkpoints - {bases[0]}), c, log,
            bases[1..])
    ensures Recoverable(k, d.(segments := d.segments - {bases[0]}, checkpoints := d.checkpoints - {bases[0]}), log,
            bases[1..])
  {
    hide Bytes, StateAt, Replay, ValidLines, ValidCursor, Holds, Content;
    CleanFiles(k, d, c, log, bases);
    var e := d.(segments := d.segments - {bases[0]});
    NotFirst(k, d, c, log, bases);
    ExpireContent(k, d, c, log, bases, e);
    ExpireContent(k, d, c, log, bases, e.(checkpoints := d.checkpoints - {bases[0]}));
  }

  lemma NotFirst(k: Codec, d: Disk, c: Cursor, log: seq<string>, bases: seq<nat>)
    requires Clean(k, d, c, log, bases) && |bases| > 1
    ensures bases[0] < bases[1..][0] && forall base :: base in bases[1..] ==> base > bases[0]
    ensures forall base :: base in bases ==> base == bases[0] || base in bases[1..]
    ensures c.segment in bases[1..] && ValidCursor(c) && d.segments[c.segment] == Bytes(log[c.segment..])
  {
    hide Bytes, StateAt, Replay, ValidLines, ValidCursor, Holds;
    assert bases == [bases[0]] + bases[1..];
  }

  lemma ExpireContent(k: Codec, d: Disk, c: Cursor, log: seq<string>, bases: seq<nat>, e: Disk)
    requires Content(k, d, c, log, bases) && |bases| > 1
    requires forall base :: base in bases[1..] && base in d.segments ==>
               base in e.segments && e.segments[base] == d.segments[base]
    requires forall base :: base in bases[1..] && base in d.checkpoints ==>
               base in e.checkpoints && e.checkpoints[base] == d.checkpoints[base]
    ensures Content(k, e, c, log, bases[1..])
  {
    hide Bytes, StateAt, Replay, ValidLines;
    forall i | 0 <= i < |bases[1..]|
      ensures Holds(k, e, c, log, bases[1..], i)
    {
      assert Holds(k, d, c, log, bases, i + 1);
    }
  }

  lemma ExpireRuns(k: Codec, before: seq<Snapshot>, after: seq<Snapshot>, from: nat, all: seq<string>, d: Disk,
                   c: Cursor, log: seq<string>, bases: seq<nat>, to: Mark)
    requires Running(before, from, all) && before != []
    requires Clean(k, d, c, log, bases) && log <= all && |bases| > 1 && before[|before| - 1].disk == d
    requires to.begun == before[|before| - 1].mark.begun
    requires Adds(before, after, Snapshot(d.(segments := d.segments - {bases[0]}), to))
    ensures Running(after, from, all)
  {
    NothingBehind(k, d, c, log, bases);
    RunLength(before, from, all);
    hide Clean, Running;
    RunOnce(before, after, from, all, Snapshot(d.(segments := d.segments - {bases[0]}), to));
  }

  // ---------- Anchor ----------

  lemma AnchorMoves(k: Codec, d: Disk, c: Cursor, bases: seq<nat>, predecessor: Trade)
    requires Clean(k, d, c, [], bases) && c.predecessor.None?
    ensures var next := c.(predecessor := Some(predecessor));
            Clean(k, d.(cursor := Some(next)), next, [], bases)
  {
    var next := c.(predecessor := Some(predecessor));
    var e := d.(cursor := Some(next));
    CleanFiles(k, d, c, [], bases);
    forall i | 0 <= i < |bases|
      ensures Holds(k, e, next, [], bases, i)
    {
      assert Holds(k, d, c, [], bases, i);
    }
  }

  // ---------- Recovery's own steps ----------

  /** Recovery removes only files outside the retained bases and truncates only the open segment's tail. */
  ghost predicate Cleaning(d: Disk, e: Disk, c: Cursor, bases: seq<nat>) {
    && e.cursor == d.cursor
    && (forall base :: base in e.segments ==> base in d.segments && e.segments[base] == d.segments[base])
    && (forall base :: base in e.checkpoints ==> base in d.checkpoints && e.checkpoints[base] == d.checkpoints[base])
    && (forall base :: base in d.segments && base in bases ==> base in e.segments)
    && (forall base :: base in d.checkpoints && base in bases ==> base in e.checkpoints)
  }

  lemma CleaningKeeps(k: Codec, d: Disk, e: Disk, log: seq<string>, bases: seq<nat>)
    requires Recoverable(k, d, log, bases) && Cleaning(d, e, d.cursor.value, bases)
    ensures Recoverable(k, e, log, bases)
  {
    var c := d.cursor.value;
    ContentFiles(k, d, c, log, bases);
    assert Holds(k, d, c, log, bases, |bases| - 1);
    assert log[c.segment..] == log[c.segment..|log|];
    SameContent(k, d, e, c, log, bases);
  }

  lemma TruncationCleans(k: Codec, d: Disk, log: seq<string>, bases: seq<nat>)
    requires Recoverable(k, d, log, bases)
    requires forall base :: base in d.segments || base in d.checkpoints ==> base in bases
    ensures var c := d.cursor.value;
            var v := StateAt(k, c, log, c.segment);
            && c.segment in d.segments && v.Ok? && v.value.bytes <= c.v.bytes
            && c.v.bytes - v.value.bytes <= |d.segments[c.segment]|
            && Clean(k, Truncated(d, c.segment, c.v.bytes - v.value.bytes), c, log, bases)
  {
    hide Bytes;
    ContentFiles(k, d, d.cursor.value, log, bases);
    OpenState(k, d, d.cursor.value, log, bases);
    var c := d.cursor.value;
    var e := Truncated(d, c.segment, |Bytes(log[c.segment..])|);
    hide StateAt, Replay;
    SameContent(k, d, e, c, log, bases);
  }

  /** The open segment's committed bytes are those between its checkpoint and the cursor. */
  lemma OpenState(k: Codec, d: Disk, c: Cursor, log: seq<string>, bases: seq<nat>)
    requires Content(k, d, c, log, bases)
    ensures c.segment in d.segments && c.segment <= |log| && Bytes(log[c.segment..]) <= d.segments[c.segment]
    ensures var v := StateAt(k, c, log, c.segment);
            v.Ok? && c.v.bytes - v.value.bytes == |Bytes(log[c.segment..])|
  {
    hide Bytes;
    assert Holds(k, d, c, log, bases, |bases| - 1);
    assert log[c.segment..] == log[c.segment..|log|] && log[..|log|] == log;
    NextState(k, c, log, c.segment, |log|);
  }
}
