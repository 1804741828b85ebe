/** The durable segmented journal: staging, group commit, sealing, retention and recovery. */
module Journal {
  import opened Feed
  import opened JournalFormat
  import opened Volumes
  import opened JournalSteps

  datatype Settings = Settings(segmentBytes: nat, replayBytes: nat, replayAgeMs: nat)

  lemma StepMonotone(k: Codec, predecessor: Option<Trade>, v: Verified, line: string)
    requires Step(k, predecessor, v, line).Ok?
    ensures var n := Step(k, predecessor, v, line).value;
            && v.cut <= n.cut <= v.cut + MINUTE && (n.cut == v.cut || n.cut == v.cut + MINUTE)
            && v.lastId <= n.lastId && v.lastTickTs <= n.lastTickTs && (n.cut != v.cut ==> n.lastId == v.lastId)
  {
  }

  lemma {:induction false} ReplayMonotone(k: Codec, predecessor: Option<Trade>, v: Verified, lines: seq<string>)
    requires Replay(k, predecessor, v, lines).Ok?
    ensures var n := Replay(k, predecessor, v, lines).value;
            v.cut <= n.cut && (n.cut - v.cut) % MINUTE == 0 && v.lastId <= n.lastId
  {
    if lines != [] {
      var front := lines[..|lines| - 1];
      ReplayMonotone(k, predecessor, v, front);
      StepMonotone(k, predecessor, Replay(k, predecessor, v, front).value, lines[|lines| - 1]);
    }
  }

  /** The cursor after one more line, with the closed-minute proof window of at most 32 bars. */
  function Staged(k: Codec, c: Cursor, line: string, proof: Option<Bar>): Result<Cursor> {
    if !ValidLine(line) then Err(23)
    else
      var v :- Step(k, c.predecessor, c.v, line);
      if proof.Some? && !proof.value.Valid() then Err(23)
      else if proof.Some? && proof.value.ts + MINUTE != v.cut then Err(23)
      else if c.v.index >= MAX_U64 then Err(22)
      else
        var proofs := if proof.Some? then c.proofs + [proof.value] else c.proofs;
        Ok(c.(v := v, proofs := if |proofs| > 32 then proofs[1..] else proofs))
  }

  lemma FirstBelow(k: Codec, c: Cursor, log: seq<string>, first: nat)
    requires Replay(k, c.predecessor, Genesis(k, c.start), log) == Ok(c.v) && first <= |log|
    ensures StateAt(k, c, log, first).Ok? && StateAt(k, c, log, first).value.lastId <= c.v.lastId
  {
    ReplayPrefix(k, c.predecessor, Genesis(k, c.start), log, first);
    ReplayMonotone(k, c.predecessor, StateAt(k, c, log, first).value, log[first..]);
  }

  /** The proof is of the minute that the line closed. */
  predicate ProofFits(proof: Option<Bar>, cut: int) {
    proof.None? || (proof.value.Valid() && proof.value.ts + MINUTE == cut)
  }

  /** The newest 32 proofs are kept; a line is refused for its length, its message, its proof, and at the last index. */
  lemma StagedIs(k: Codec, c: Cursor, line: string, proof: Option<Bar>)
    requires |c.proofs| <= 32
    ensures var r, step := Staged(k, c, line, proof), Step(k, c.predecessor, c.v, line);
            if !ValidLine(line) then r == Err(23)
            else if step.Err? then r == Err(step.code)
            else if !ProofFits(proof, step.value.cut) then r == Err(23)
            else if c.v.index >= MAX_U64 then r == Err(22)
            else
              var all := if proof.Some? then c.proofs + [proof.value] else c.proofs;
              && r.Ok? && |r.value.proofs| <= |all| && all[|all| - |r.value.proofs|..] == r.value.proofs
              && |r.value.proofs| == if |all| < 32 then |all| else 32
  {
    hide Step, ValidLine;
  }

  lemma StagedProofs(k: Codec, c: Cursor, line: string, proof: Option<Bar>)
    requires AscendingProofs(c) && Staged(k, c, line, proof).Ok?
    requires proof.Some? ==> Staged(k, c, line, proof).value.v.cut > c.v.cut
    ensures var next := Staged(k, c, line, proof).value;
            AscendingProofs(next) && ProtectedStart(c) <= ProtectedStart(next)
  {
    hide Step, AscendingProofs, ProtectedStart;
    StepMonotone(k, c.predecessor, c.v, line);
    var next := Staged(k, c, line, proof).value;
    var more := next.(proofs := if proof.Some? then c.proofs + [proof.value] else c.proofs);
    MoreProofs(c, more, proof);
    if next != more {
      LaterProofs(more, next);
    }
  }

  lemma MoreProofs(c: Cursor, more: Cursor, proof: Option<Bar>)
    requires AscendingProofs(c) && c.v.cut <= more.v.cut
    requires more.proofs == if proof.Some? then c.proofs + [proof.value] else c.proofs
    requires proof.Some? ==> proof.value.ts == c.v.cut && more.v.cut == c.v.cut + MINUTE
    ensures AscendingProofs(more) && ProtectedStart(c) <= ProtectedStart(more)
  {
  }

  lemma LaterProofs(more: Cursor, next: Cursor)
    requires AscendingProofs(more) && more.proofs != [] && next == more.(proofs := more.proofs[1..])
    ensures AscendingProofs(next) && ProtectedStart(more) <= ProtectedStart(next)
  {
    forall i, j | 0 <= i < j < |next.proofs|
      ensures next.proofs[i].ts < next.proofs[j].ts
    {
      assert more.proofs[i + 1].ts < more.proofs[j + 1].ts;
    }
    forall i | 0 <= i < |next.proofs|
      ensures next.proofs[i].ts + MINUTE <= next.v.cut
    {
      assert more.proofs[i + 1].ts + MINUTE <= more.v.cut;
    }
    if next.proofs != [] {
      assert more.proofs[0].ts < more.proofs[1].ts;
    }
  }

  lemma StagedGuarded(k: Codec, c: Cursor, log: seq<string>, first: nat, line: string, proof: Option<Bar>,
                      closing: bool, still: bool)
    requires Replay(k, c.predecessor, Genesis(k, c.start), log) == Ok(c.v)
    requires Guarded(k, c, log, first, closing)
    requires Staged(k, c, line, proof).Ok?
    requires still ==> closing && (proof.Some? ==> Staged(k, c, line, proof).value.v.cut > c.v.cut)
    ensures Guarded(k, Staged(k, c, line, proof).value, log + [line], first, still)
  {
    hide AscendingProofs, ProtectedStart, Replay;
    var next := Staged(k, c, line, proof).value;
    StepMonotone(k, c.predecessor, c.v, line);
    if still {
      StagedProofs(k, c, line, proof);
    }
    FirstBelow(k, c, log, first);
    assert (log + [line])[..first] == log[..first];
    assert StateAt(k, next, log + [line], first) == StateAt(k, c, log, first);
  }

  lemma StagedFollows(k: Codec, c: Cursor, next: Cursor, staged: seq<string>, line: string, proof: Option<Bar>)
    requires Follows(k, c, next, staged) && Staged(k, next, line, proof).Ok?
    ensures Follows(k, c, Staged(k, next, line, proof).value, staged + [line])
  {
    assert (staged + [line])[..|staged + [line]| - 1] == staged;
  }

  lemma StagedValidCursor(k: Codec, c: Cursor, line: string, proof: Option<Bar>)
    requires ValidCursor(c) && Staged(k, c, line, proof).Ok?
    ensures ValidCursor(Staged(k, c, line, proof).value)
  {
    StepMonotone(k, c.predecessor, c.v, line);
  }

  /** Whether retention drops the oldest of at least two segments. */
  predicate Expires(settings: Settings, mode: Mode, c: Cursor, oldest: Segment, next: Segment) {
    && next.cut < ProtectedStart(c)
    && !(mode.TickMode() && next.lastId == c.v.lastId && oldest.lastId < c.v.lastId)
    && (c.v.bytes - oldest.bytes > settings.replayBytes
        || (settings.replayAgeMs != 0 && c.v.cut - next.cut > settings.replayAgeMs))
  }

  /** How many of the oldest segments one retention pass drops. */
  function Expiring(settings: Settings, mode: Mode, c: Cursor, segments: seq<Segment>): (n: nat)
    ensures segments != [] ==> n < |segments|
  {
    if |segments| <= 1 || !Expires(settings, mode, c, segments[0], segments[1]) then 0
    else 1 + Expiring(settings, mode, c, segments[1..])
  }

  /** The table after a full open segment was sealed. */
  function Sealed(settings: Settings, c: Cursor, segments: seq<Segment>): seq<Segment> {
    if segments != [] && c.v.bytes - segments[|segments| - 1].bytes >= settings.segmentBytes
    then segments + [SegmentOf(c.v)] else segments
  }

  /** The table after sealing and one retention pass. */
  function Settled(settings: Settings, mode: Mode, c: Cursor, segments: seq<Segment>): seq<Segment> {
    var sealed := Sealed(settings, c, segments);
    if sealed == [] then [] else sealed[Expiring(settings, mode, c, sealed)..]
  }

  // ---------- What the rules promise ----------

  /** With its oldest segment the retained log is over the byte budget, or all of that segment is over the age budget.
      */
  ghost predicate OverBudget(settings: Settings, c: Cursor, oldest: Segment, next: Segment) {
    || settings.replayBytes < c.v.bytes - oldest.bytes
    || 0 < settings.replayAgeMs < c.v.cut - next.cut
  }

  /** The oldest segment may hold a message of the protected window, or holds the newest print. */
  ghost predicate Needed(mode: Mode, c: Cursor, oldest: Segment, next: Segment) {
    || ProtectedStart(c) <= next.cut
    || (mode.TickMode() && oldest.lastId < c.v.lastId && next.lastId == c.v.lastId)
  }

  /** From the one table to the other only oldest segments were dropped, each over a budget and not needed, until one
      was
      left or the oldest was needed or within both budgets. */
  ghost predicate RetainedByRule(settings: Settings, mode: Mode, c: Cursor, before: seq<Segment>, after: seq<Segment>) {
    && 0 < |after| <= |before| && after == before[|before| - |after|..]
    && (forall i :: 0 <= i < |before| - |after| ==>
                      OverBudget(settings, c, before[i], before[i + 1]) && !Needed(mode, c, before[i], before[i + 1]))
    && (|after| > 1 ==> Needed(mode, c, after[0], after[1]) || !OverBudget(settings, c, after[0], after[1]))
  }

  /** A segment begins at the cursor exactly when the open one has reached its size. */
  ghost predicate SealedByRule(settings: Settings, c: Cursor, before: seq<Segment>, after: seq<Segment>) {
    && before != []
    && var size := c.v.bytes - before[|before| - 1].bytes;
    && (size < settings.segmentBytes ==> after == before)
    && (size >= settings.segmentBytes ==>
          after == before + [Segment(c.v.index, c.v.bytes, c.v.lastId, c.v.cut, c.v.lastTickTs)])
  }

  /** What a commit does to the table. */
  ghost predicate SettledByRule(settings: Settings, mode: Mode, c: Cursor, before: seq<Segment>, after: seq<Segment>) {
    exists sealed :: SealedByRule(settings, c, before, sealed) && RetainedByRule(settings, mode, c, sealed, after)
  }

  lemma ExpiresByRule(settings: Settings, mode: Mode, c: Cursor, oldest: Segment, next: Segment)
    ensures Expires(settings, mode, c, oldest, next)
       <==> OverBudget(settings, c, oldest, next) && !Needed(mode, c, oldest, next)
  {
  }

  lemma DroppedFirst(settings: Settings, mode: Mode, c: Cursor, segments: seq<Segment>, after: seq<Segment>)
    requires |segments| > 1 && RetainedByRule(settings, mode, c, segments[1..], after)
    requires OverBudget(settings, c, segments[0], segments[1]) && !Needed(mode, c, segments[0], segments[1])
    ensures RetainedByRule(settings, mode, c, segments, after)
  {
    hide OverBudget, Needed;
    var n := |segments| - |after|;
    assert segments[n..] == segments[1..][n - 1..];
    forall i | 0 <= i < n
      ensures OverBudget(settings, c, segments[i], segments[i + 1]) && !Needed(mode, c, segments[i], segments[i + 1])
    {
      assert i > 0 ==> segments[i] == segments[1..][i - 1] && segments[i + 1] == segments[1..][i];
    }
  }

  lemma {:induction false} ExpiringFollowsRule(settings: Settings, mode: Mode, c: Cursor, segments: seq<Segment>)
    requires segments != []
    ensures RetainedByRule(settings, mode, c, segments, segments[Expiring(settings, mode, c, segments)..])
    decreases |segments|
  {
    hide Expires, OverBudget, Needed;
    if |segments| > 1 {
      ExpiresByRule(settings, mode, c, segments[0], segments[1]);
    }
    var n := Expiring(settings, mode, c, segments);
    if n > 0 {
      ExpiringFollowsRule(settings, mode, c, segments[1..]);
      assert segments[1..][n - 1..] == segments[n..];
      hide RetainedByRule;
      DroppedFirst(settings, mode, c, segments, segments[n..]);
    } else {
      assert segments[0..] == segments;
    }
  }

  lemma SettledFollowsRule(settings: Settings, mode: Mode, c: Cursor, segments: seq<Segment>)
    requires segments != []
    ensures SettledByRule(settings, mode, c, segments, Settled(settings, mode, c, segments))
  {
    var sealed := Sealed(settings, c, segments);
    ExpiringFollowsRule(settings, mode, c, sealed);
    assert SealedByRule(settings, c, segments, sealed);
  }

  /** The rules leave one table, whoever applies them. */
  lemma OneTableByRule(settings: Settings, mode: Mode, c: Cursor, before: seq<Segment>, a: seq<Segment>,
                       b: seq<Segment>)
    requires SettledByRule(settings, mode, c, before, a) && SettledByRule(settings, mode, c, before, b)
    ensures a == b
  {
    var sealed :| SealedByRule(settings, c, before, sealed) && RetainedByRule(settings, mode, c, sealed, a);
    RuleStops(settings, mode, c, sealed, a);
    RuleStops(settings, mode, c, sealed, b);
  }

  lemma RuleStops(settings: Settings, mode: Mode, c: Cursor, before: seq<Segment>, after: seq<Segment>)
    requires RetainedByRule(settings, mode, c, before, after)
    ensures var n := |before| - |after|;
            n + 1 < |before| ==> Needed(mode, c, before[n], before[n + 1])
                                 || !OverBudget(settings, c, before[n], before[n + 1])
  {
  }

  /** A log within the byte budget loses nothing to it, and after a commit the open segment is below its size. */
  lemma SmallLogIsKept(settings: Settings, mode: Mode, c: Cursor, before: seq<Segment>, after: seq<Segment>)
    requires SettledByRule(settings, mode, c, before, after)
    ensures c.v.bytes - before[0].bytes <= settings.replayBytes && settings.replayAgeMs == 0 ==> before <= after
    ensures settings.segmentBytes > 0 ==> c.v.bytes - after[|after| - 1].bytes < settings.segmentBytes
  {
    var sealed :| SealedByRule(settings, c, before, sealed) && RetainedByRule(settings, mode, c, sealed, after);
    assert sealed[0] == before[0] && after[|after| - 1] == sealed[|sealed| - 1];
    if |after| < |sealed| {
      assert OverBudget(settings, c, sealed[0], sealed[1]);
    }
  }

  /** The first line of a table's oldest segment. */
  function FirstLine(segments: seq<Segment>): nat {
    if segments == [] then 0 else segments[0].base
  }

  ghost predicate AscendingTable(segments: seq<Segment>) {
    forall i, j :: 0 <= i < j < |segments| ==> segments[i].base < segments[j].base
  }

  lemma {:induction false} SameExpiring(settings: Settings, mode: Mode, c: Cursor, e: Cursor, segments: seq<Segment>)
    requires e == c.(segment := e.segment)
    ensures Expiring(settings, mode, c, segments) == Expiring(settings, mode, e, segments)
  {
    if |segments| > 1 {
      SameExpiring(settings, mode, c, e, segments[1..]);
    }
  }

  lemma CommittedDescribes(k: Codec, c: Cursor, next: Cursor, log: seq<string>, staged: seq<string>, bases: seq<nat>,
                           segments: seq<Segment>)
    requires Describes(k, c, log, bases, segments) && Follows(k, c, next, staged)
    ensures Describes(k, next, log + staged, bases, segments)
  {
    forall i | 0 <= i < |bases|
      ensures StateAt(k, next, log + staged, bases[i]) == StateAt(k, c, log, bases[i])
    {
      assert (log + staged)[..bases[i]] == log[..bases[i]];
    }
  }

  lemma SealedDescribes(k: Codec, c: Cursor, log: seq<string>, bases: seq<nat>, segments: seq<Segment>)
    requires Describes(k, c, log, bases, segments)
    requires Replay(k, c.predecessor, Genesis(k, c.start), log) == Ok(c.v)
    ensures Describes(k, c.(segment := |log|), log, bases + [|log|], segments + [SegmentOf(c.v)])
  {
    assert log[..|log|] == log;
    forall i | 0 <= i < |bases|
      ensures StateAt(k, c.(segment := |log|), log, bases[i]) == StateAt(k, c, log, bases[i])
    {
    }
  }

  lemma ExpiredGuarded(k: Codec, settings: Settings, c: Cursor, log: seq<string>, bases: seq<nat>,
                       segments: seq<Segment>, closing: bool)
    requires Boundaries(bases, c, |log|) && |bases| > 1 && Describes(k, c, log, bases, segments)
    requires Replay(k, c.predecessor, Genesis(k, c.start), log) == Ok(c.v)
    requires Guarded(k, c, log, bases[0], closing) && Expires(settings, k.mode, c, segments[0], segments[1])
    ensures Guarded(k, c, log, bases[1], closing)
  {
    assert segments[0] == SegmentOf(StateAt(k, c, log, bases[0]).value);
    assert segments[1] == SegmentOf(StateAt(k, c, log, bases[1]).value);
    ReplayPrefix(k, c.predecessor, Genesis(k, c.start), log, bases[1]);
    ReplayMonotone(k, c.predecessor, StateAt(k, c, log, bases[1]).value, log[bases[1]..]);
  }

  /** The durable and the staged cursor, and the segment table, describe the committed log and the staged lines. */
  ghost predicate Consistent(k: Codec, durable: Cursor, cursor: Cursor, segments: seq<Segment>, staged: seq<string>,
                             log: seq<string>, bases: seq<nat>, closing: bool) {
    && ValidCursor(durable) && ValidCursor(cursor)
    && ValidLines(log) && Replay(k, durable.predecessor, Genesis(k, durable.start), log) == Ok(durable.v)
    && Follows(k, durable, cursor, staged) && (staged == [] ==> cursor == durable)
    && Boundaries(bases, durable, |log|) && Describes(k, durable, log, bases, segments)
    && Guarded(k, durable, log, bases[0], closing) && Guarded(k, cursor, log + staged, bases[0], closing)
  }

  lemma ConsistentFacts(k: Codec, durable: Cursor, cursor: Cursor, segments: seq<Segment>, staged: seq<string>,
                        log: seq<string>, bases: seq<nat>, closing: bool)
    requires Consistent(k, durable, cursor, segments, staged, log, bases, closing)
    ensures durable.v.index == |log| && cursor.v.index == |log| + |staged| && cursor.segment == durable.segment <= |log|
    ensures staged == [] ==> cursor == durable && log + staged == log
    ensures |segments| == |bases| > 0 && segments[0].base == bases[0]
            && segments[|segments| - 1].bytes <= durable.v.bytes
    ensures bases[|bases| - 1] == durable.segment
    ensures staged != [] ==> durable.segment < |log + staged|
    ensures Guarded(k, durable, log, bases[0], closing) && Guarded(k, cursor, log + staged, bases[0], closing)
    ensures Follows(k, durable, cursor, staged) && ValidCursor(cursor)
  {
    ReplayCounts(k, durable.predecessor, Genesis(k, durable.start), log);
    ReplayCounts(k, durable.predecessor, durable.v, staged);
    ReplayCounts(k, durable.predecessor, Genesis(k, durable.start), log[..bases[0]]);
    assert log[..|log|] == log;
    NextState(k, durable, log, durable.segment, |log|);
  }

  lemma TableAscends(k: Codec, durable: Cursor, cursor: Cursor, segments: seq<Segment>, staged: seq<string>,
                     log: seq<string>, bases: seq<nat>, closing: bool)
    requires Consistent(k, durable, cursor, segments, staged, log, bases, closing)
    ensures AscendingTable(segments) && segments != [] && segments[|segments| - 1].base == durable.segment
    ensures forall i :: 0 <= i < |bases| ==> i < |segments| && segments[i].base == bases[i]
  {
    forall i | 0 <= i < |bases|
      ensures segments[i].base == bases[i]
    {
      ReplayCounts(k, durable.predecessor, Genesis(k, durable.start), log[..bases[i]]);
    }
  }

  lemma StageConsistent(k: Codec, durable: Cursor, cursor: Cursor, segments: seq<Segment>, staged: seq<string>,
                        log: seq<string>, bases: seq<nat>, closing: bool, line: string, proof: Option<Bar>, still: bool)
    requires Consistent(k, durable, cursor, segments, staged, log, bases, closing)
    requires Staged(k, cursor, line, proof).Ok?
    requires still ==> closing && (proof.Some? ==> Staged(k, cursor, line, proof).value.v.cut > cursor.v.cut)
    ensures Consistent(k, durable, Staged(k, cursor, line, proof).value, segments, staged + [line], log, bases, still)
    ensures Bytes(staged + [line]) == Bytes(staged) + line + "\n"
  {
    StagedFollows(k, durable, cursor, staged, line, proof);
    StagedValidCursor(k, cursor, line, proof);
    assert (staged + [line])[..|staged|] == staged;
    assert log + (staged + [line]) == log + staged + [line];
    ReplayConcat(k, durable.predecessor, Genesis(k, durable.start), log, staged);
    StagedGuarded(k, cursor, log + staged, bases[0], line, proof, closing, still);
  }

  lemma AnchorConsistent(k: Codec, c: Cursor, segments: seq<Segment>, bases: seq<nat>, closing: bool,
                         predecessor: Trade)
    requires Consistent(k, c, c, segments, [], [], bases, closing)
    ensures var next := c.(predecessor := Some(predecessor));
            Consistent(k, next, next, segments, [], [], bases, closing)
  {
  }

  lemma CommitConsistent(k: Codec, durable: Cursor, cursor: Cursor, segments: seq<Segment>, staged: seq<string>,
                         log: seq<string>, bases: seq<nat>, closing: bool)
    requires Consistent(k, durable, cursor, segments, staged, log, bases, closing)
    ensures Consistent(k, cursor, cursor, segments, [], log + staged, bases, closing)
  {
    ReplayConcat(k, durable.predecessor, Genesis(k, durable.start), log, staged);
    CommittedDescribes(k, durable, cursor, log, staged, bases, segments);
    assert log + staged + [] == log + staged;
  }

  lemma SealConsistent(k: Codec, c: Cursor, segments: seq<Segment>, log: seq<string>, bases: seq<nat>, closing: bool)
    requires Consistent(k, c, c, segments, [], log, bases, closing) && c.segment < |log|
    ensures Consistent(k, c.(segment := |log|), c.(segment := |log|), segments + [SegmentOf(c.v)], [], log,
                       bases + [|log|], closing)
  {
    assert log + [] == log;
    ReplayCounts(k, c.predecessor, Genesis(k, c.start), log);
    SealedDescribes(k, c, log, bases, segments);
    SealedGuarded(k, c, log, bases[0], closing);
  }

  lemma SealedGuarded(k: Codec, c: Cursor, log: seq<string>, first: nat, closing: bool)
    requires Guarded(k, c, log, first, closing)
    ensures Guarded(k, c.(segment := |log|), log, first, closing)
  {
    assert StateAt(k, c.(segment := |log|), log, first) == StateAt(k, c, log, first);
  }

  lemma ExpireConsistent(k: Codec, settings: Settings, c: Cursor, segments: seq<Segment>, log: seq<string>,
                         bases: seq<nat>, closing: bool)
    requires Consistent(k, c, c, segments, [], log, bases, closing)
    requires |segments| > 1 && Expires(settings, k.mode, c, segments[0], segments[1])
    ensures Consistent(k, c, c, segments[1..], [], log, bases[1..], closing)
    ensures segments[0].base == bases[0]
  {
    assert log + [] == log;
    ReplayCounts(k, c.predecessor, Genesis(k, c.start), log[..bases[0]]);
    ExpiredGuarded(k, settings, c, log, bases, segments, closing);
  }

  /** Dropping the oldest segment file, seen from the clean disk before it. */
  lemma ExpireStep(k: Codec, settings: Settings, d: Disk, durable: Cursor, cursor: Cursor, segments: seq<Segment>,
                   staged: seq<string>, log: seq<string>, bases: seq<nat>, closing: bool)
    requires Consistent(k, durable, cursor, segments, staged, log, bases, closing) && staged == []
    requires Clean(k, d, durable, log, bases) && |segments| > 1
             && Expires(settings, k.mode, durable, segments[0], segments[1])
    ensures |bases| == |segments| && segments[0].base == bases[0] && segments[1].base == bases[1]
    ensures cursor == durable && log + staged == log && durable.v.index == |log|
    ensures d.cursor == Some(durable)
    ensures Recoverable(k, d.(segments := d.segments - {bases[0]}), log, bases[1..])
    ensures Guarded(k, durable, log, bases[1..][0], closing)
    ensures Consistent(k, durable, cursor, segments[1..], staged, log, bases[1..], closing)
  {
    hide Clean, Guarded, Recoverable, Expires;
    TableAscends(k, durable, cursor, segments, staged, log, bases, closing);
    ConsistentFacts(k, durable, cursor, segments, staged, log, bases, closing);
    CleanFiles(k, d, durable, log, bases);
    ExpireKeeps(k, d, durable, log, bases);
    ExpireConsistent(k, settings, durable, segments, log, bases, closing);
    ConsistentFacts(k, durable, durable, segments[1..], [], log, bases[1..], closing);
  }

  lemma BegunNext(mark: Mark, bases: seq<nat>, size: nat)
    requires mark.Valid() && bases == mark.Bases() && bases[|bases| - 1] < size
    ensures var to := mark.(begun := mark.begun + [size]);
            to.Valid() && to.Bases() == bases + [size] && mark.UpTo(to) && to.First() == mark.First() == bases[0]
  {
    assert bases[|bases| - 1] == mark.begun[|mark.begun| - 1];
  }

  lemma ExpiredNext(mark: Mark, bases: seq<nat>)
    requires mark.Valid() && bases == mark.Bases() && |bases| > 1
    ensures var to := mark.(expired := mark.expired + 1);
            to.Valid() && to.Bases() == bases[1..] && mark.UpTo(to) && to.First() == bases[1]
  {
  }

  lemma FirstIsListed(k: Codec, mark: Mark, durable: Cursor, cursor: Cursor, segments: seq<Segment>,
                      staged: seq<string>, log: seq<string>, bases: seq<nat>, closing: bool)
    requires Consistent(k, durable, cursor, segments, staged, log, bases, closing)
    requires mark.Valid() && bases == mark.Bases()
    ensures segments != [] && mark.First() == segments[0].base && AscendingTable(segments)
  {
    TableAscends(k, durable, cursor, segments, staged, log, bases, closing);
  }

  /** Sealing and retention never give up lines before the oldest segment of the resulting table. */
  lemma SettledTable(k: Codec, settings: Settings, durable: Cursor, cursor: Cursor, segments: seq<Segment>,
                     staged: seq<string>, log: seq<string>, bases: seq<nat>, closing: bool)
    requires Consistent(k, durable, cursor, segments, staged, log, bases, closing) && durable.segment < |log|
    ensures segments != [] && AscendingTable(Sealed(settings, durable, segments))
    ensures segments[0].base <= FirstLine(Settled(settings, k.mode, durable, segments))
  {
    hide Consistent, Bytes, Follows, Guarded, ValidCursor;
    ConsistentFacts(k, durable, cursor, segments, staged, log, bases, closing);
    TableAscends(k, durable, cursor, segments, staged, log, bases, closing);
  }

  lemma AppendRecorded(k: Codec, before: seq<Snapshot>, after: seq<Snapshot>, from: nat, mark: Mark, disk: Disk,
                       c: Cursor, log: seq<string>, staged: seq<string>, bases: seq<nat>, closing: bool, bytes: string)
    requires SafeHistory(k, before, log + staged, closing) && Running(before, from, log + staged)
    requires before != [] && mark.Valid() && bases == mark.Bases() && mark.released <= |log|
    requires Clean(k, disk, c, log, bases) && c.segment in disk.segments && Guarded(k, c, log, bases[0], closing)
    requires before[|before| - 1] == Snapshot(disk, mark) && before <= after
    requires forall i :: |before| <= i < |after| ==>
               after[i].mark == mark && after[i].disk in iset n | 0 <= n <= |bytes| :: Appended(disk, c.segment,
                                                                                                bytes[..n])
    requires Ascends(after, |before| - 1, c.segment)
    ensures SafeHistory(k, after, log + staged, closing) && Running(after, from, log + staged)
    ensures |after| > 0 && Committed(disk, after[|after| - 1].disk)
  {
    hide Clean, SafeHistory, Running, Guarded, Recoverable;
    NothingBehind(k, disk, c, log, bases);
    var disks := iset n | 0 <= n <= |bytes| :: Appended(disk, c.segment, bytes[..n]);
    forall d | d in disks
      ensures Recoverable(k, d, log, bases) && d.cursor == Some(c)
    {
      var n :| 0 <= n <= |bytes| && d == Appended(disk, c.segment, bytes[..n]);
      AppendKeeps(k, disk, c, log, bases, bytes[..n]);
    }
    HistoryStep(k, before, after, disks, c, mark, log + staged, log, closing);
    AppendRuns(k, before, after, from, log + staged, disk, c, log, bases, bytes);
  }

  lemma CommitRecorded(k: Codec, before: seq<Snapshot>, after: seq<Snapshot>, from: nat, mark: Mark, disk: Disk,
                       durable: Cursor, cursor: Cursor, segments: seq<Segment>, staged: seq<string>, log: seq<string>,
                       bases: seq<nat>, closing: bool)
    requires Consistent(k, durable, cursor, segments, staged, log, bases, closing)
    requires SafeHistory(k, before, log + staged, closing) && Running(before, from, log + staged)
    requires before != [] && mark.Valid() && bases == mark.Bases() && mark.released <= |log|
    requires Clean(k, disk, durable, log, bases) && durable.segment in disk.segments
    requires before[|before| - 1] == Snapshot(Appended(disk, durable.segment, Bytes(staged)), mark)
    requires Adds(before, after, Snapshot(Appended(disk, durable.segment, Bytes(staged)).(cursor := Some(cursor)),
             mark))
    ensures SafeHistory(k, after, log + staged, closing) && Running(after, from, log + staged)
    ensures Clean(k, Appended(disk, durable.segment, Bytes(staged)).(cursor := Some(cursor)), cursor, log + staged,
            bases)
    ensures Consistent(k, cursor, cursor, segments, [], log + staged, bases, closing)
    ensures log + staged + [] == log + staged
  {
    hide Consistent, Clean, SafeHistory, Running, Guarded, Recoverable, Bytes, Follows, ValidCursor;
    var all := log + staged;
    var committed := Appended(disk, durable.segment, Bytes(staged)).(cursor := Some(cursor));
    ConsistentFacts(k, durable, cursor, segments, staged, log, bases, closing);
    NothingBehind(k, disk, durable, log, bases);
    CommitMoves(k, disk, durable, log, bases, cursor, staged);
    CleanIsRecoverable(k, committed, cursor, all, bases);
    HistoryOnce(k, before, after, Snapshot(committed, mark), all, all, closing);
    CursorRuns(before, after, from, all, cursor, mark);
    CommitConsistent(k, durable, cursor, segments, staged, log, bases, closing);
  }

  lemma AnchorRecorded(k: Codec, before: seq<Snapshot>, after: seq<Snapshot>, from: nat, mark: Mark, disk: Disk,
                       c: Cursor, segments: seq<Segment>, bases: seq<nat>, closing: bool, predecessor: Trade)
    requires Consistent(k, c, c, segments, [], [], bases, closing) && c.predecessor.None?
    requires SafeHistory(k, before, [], closing) && Running(before, from, [])
    requires before != [] && mark.Valid() && bases == mark.Bases() && mark.released == 0
    requires Clean(k, disk, c, [], bases) && before[|before| - 1] == Snapshot(disk, mark)
    requires Adds(before, after, Snapshot(disk.(cursor := Some(c.(predecessor := Some(predecessor)))), mark))
    ensures SafeHistory(k, after, [], closing) && Running(after, from, [])
    ensures var next := c.(predecessor := Some(predecessor));
            && Clean(k, disk.(cursor := Some(next)), next, [], bases)
            && Consistent(k, next, next, segments, [], [], bases, closing)
  {
    hide Consistent, Clean, SafeHistory, Running, Guarded, Recoverable, Bytes, Follows, ValidCursor;
    var next := c.(predecessor := Some(predecessor));
    AnchorConsistent(k, c, segments, bases, closing, predecessor);
    AnchorMoves(k, disk, c, bases, predecessor);
    CleanIsRecoverable(k, disk.(cursor := Some(next)), next, [], bases);
    ConsistentFacts(k, next, next, segments, [], [], bases, closing);
    NothingBehind(k, disk, c, [], bases);
    HistoryOnce(k, before, after, Snapshot(disk.(cursor := Some(next)), mark), [], [], closing);
    CursorRuns(before, after, from, [], next, mark);
  }

  lemma CreateRecorded(k: Codec, before: seq<Snapshot>, after: seq<Snapshot>, from: nat, mark: Mark, disk: Disk,
                       c: Cursor, log: seq<string>, bases: seq<nat>, closing: bool)
    requires SafeHistory(k, before, log, closing) && Running(before, from, log)
    requires before != [] && mark.Valid() && bases == mark.Bases() && mark.released <= |log|
    requires Clean(k, disk, c, log, bases) && c.segment < |log| && Guarded(k, c, log, bases[0], closing)
    requires before[|before| - 1] == Snapshot(Renamed(disk, |log|, Named(c)), mark)
    requires Adds(before, after, Snapshot(Created(disk, c, |log|), mark))
    ensures SafeHistory(k, after, log, closing) && Running(after, from, log)
    ensures |after| > 0 && Committed(before[|before| - 1].disk, after[|after| - 1].disk)
  {
    hide Clean, SafeHistory, Running, Guarded, Recoverable;
    NothingBehind(k, disk, c, log, bases);
    SealSteps(k, disk, c, log, bases);
    HistoryOnce(k, before, after, Snapshot(Created(disk, c, |log|), mark), log, log, closing);
    CreateRuns(k, before, after, from, log, disk, c, log, bases);
  }

  lemma OpenRecorded(k: Codec, before: seq<Snapshot>, after: seq<Snapshot>, from: nat, mark: Mark, disk: Disk,
                     c: Cursor, segments: seq<Segment>, log: seq<string>, bases: seq<nat>, closing: bool)
    requires Consistent(k, c, c, segments, [], log, bases, closing)
    requires SafeHistory(k, before, log, closing) && Running(before, from, log)
    requires before != [] && mark.Valid() && bases == mark.Bases() && mark.released <= |log|
    requires Clean(k, disk, c, log, bases) && c.segment < |log|
    requires before[|before| - 1] == Snapshot(Created(disk, c, |log|), mark)
    requires Adds(before, after, Snapshot(Created(disk, c, |log|).(cursor := Some(c.(segment := |log|))),
                                          mark.(begun := mark.begun + [|log|])))
    ensures SafeHistory(k, after, log, closing) && Running(after, from, log)
    ensures var rotated := c.(segment := |log|);
            && Consistent(k, rotated, rotated, segments + [SegmentOf(c.v)], [], log, bases + [|log|], closing)
            && Clean(k, Created(disk, c, |log|).(cursor := Some(rotated)), rotated, log, bases + [|log|])
  {
    hide Consistent, Clean, SafeHistory, Running, Guarded, Recoverable;
    var rotated, to := c.(segment := |log|), mark.(begun := mark.begun + [|log|]);
    ConsistentFacts(k, c, c, segments, [], log, bases, closing);
    NothingBehind(k, disk, c, log, bases);
    BegunNext(mark, bases, |log|);
    SealSteps(k, disk, c, log, bases);
    SealConsistent(k, c, segments, log, bases, closing);
    ConsistentFacts(k, rotated, rotated, segments + [SegmentOf(c.v)], [], log, bases + [|log|], closing);
    HistoryOnce(k, before, after, Snapshot(Created(disk, c, |log|).(cursor := Some(rotated)), to), log, log, closing);
    CursorRuns(before, after, from, log, rotated, to);
  }

  lemma ExpireRecorded(k: Codec, before: seq<Snapshot>, after: seq<Snapshot>, from: nat, mark: Mark, disk: Disk,
                       c: Cursor, log: seq<string>, bases: seq<nat>, closing: bool)
    requires SafeHistory(k, before, log, closing) && Running(before, from, log)
    requires before != [] && mark.Valid() && bases == mark.Bases() && |bases| > 1 && mark.released <= |log|
    requires Clean(k, disk, c, log, bases) && Guarded(k, c, log, bases[1], closing)
    requires before[|before| - 1] == Snapshot(disk, mark)
    requires Adds(before, after, Snapshot(disk.(segments := disk.segments - {bases[0]}),
             mark.(expired := mark.expired + 1)))
    ensures SafeHistory(k, after, log, closing) && Running(after, from, log)
    ensures |after| > 0 && Committed(disk, after[|after| - 1].disk)
  {
    hide Clean, SafeHistory, Running, Guarded, Recoverable;
    var to := mark.(expired := mark.expired + 1);
    NothingBehind(k, disk, c, log, bases);
    ExpiredNext(mark, bases);
    ExpireKeeps(k, disk, c, log, bases);
    HistoryOnce(k, before, after, Snapshot(disk.(segments := disk.segments - {bases[0]}), to), log, log, closing);
    ExpireRuns(k, before, after, from, log, disk, c, log, bases, to);
  }

  /** Removing the expired segment's checkpoint leaves the clean disk of the rest. */
  lemma CheckpointRecorded(k: Codec, before: seq<Snapshot>, after: seq<Snapshot>, from: nat, mark: Mark, disk: Disk,
                           c: Cursor, base: nat, log: seq<string>, bases: seq<nat>, closing: bool)
    requires SafeHistory(k, before, log, closing) && Running(before, from, log)
    requires before != [] && mark.Valid() && bases == mark.Bases() && mark.released <= |log|
    requires Clean(k, disk, c, log, [base] + bases) && Guarded(k, c, log, bases[0], closing)
    requires before[|before| - 1] == Snapshot(disk.(segments := disk.segments - {base}), mark)
    requires Adds(before, after, Snapshot(disk.(segments := disk.segments - {base},
             checkpoints := disk.checkpoints - {base}),
                                          mark))
    ensures SafeHistory(k, after, log, closing) && Running(after, from, log)
    ensures |after| > 0 && Committed(before[|before| - 1].disk, after[|after| - 1].disk)
    ensures Clean(k, disk.(segments := disk.segments - {base}, checkpoints := disk.checkpoints - {base}), c, log, bases)
  {
    hide Clean, SafeHistory, Running, Guarded, Recoverable;
    var expired := disk.(segments := disk.segments - {base}, checkpoints := disk.checkpoints - {base});
    assert ([base] + bases)[1..] == bases;
    NothingBehind(k, disk, c, log, [base] + bases);
    ExpireKeeps(k, disk, c, log, [base] + bases);
    HistoryOnce(k, before, after, Snapshot(expired, mark), log, log, closing);
    RunSame(before, after, from, log);
  }

  class State {
    const k: Codec
    const settings: Settings
    const vol: Volume
    var durable: Cursor
    var cursor: Cursor
    var segments: seq<Segment>
    var staged: seq<string>
    var stagedBytes: string
    var unusable: bool
    ghost const from: nat       // the snapshot this process started from
    ghost var log: seq<string>
    ghost var bases: seq<nat>
    ghost var closing: bool

    /** The in-memory cursors, tables and buffers describe the committed log and the staged lines. */
    ghost predicate Sound()
      reads this, vol
    {
      && vol.Valid() && vol.mark.released <= |log|
      && vol.disk.cursor.Some? && |log| <= vol.disk.cursor.value.v.index && SameStream(durable, vol.disk.cursor.value)
      && Consistent(k, durable, cursor, segments, staged, log, bases, closing) && stagedBytes == Bytes(staged)
      && SafeHistory(k, vol.history, log + staged, closing) && Running(vol.history, from, log + staged)
    }

    /** The segment table is that of the segments begun and not given up. */
    ghost predicate Listed()
      reads this, vol
    {
      vol.mark.Valid() && bases == vol.mark.Bases()
    }

    ghost predicate Tidy()
      reads this, vol
    {
      Listed() && Clean(k, vol.disk, durable, log, bases)
    }

    ghost predicate Valid()
      reads this, vol
    {
      Sound() && (unusable || Tidy())
    }

    constructor Restored(k: Codec, settings: Settings, vol: Volume, c: Cursor, segments: seq<Segment>,
                         ghost log: seq<string>, ghost bases: seq<nat>, ghost closing: bool)
      requires vol.Valid()
      ensures this.k == k && this.settings == settings && this.vol == vol && from == |vol.history| - 1
      ensures durable == cursor == c && this.segments == segments && staged == [] && stagedBytes == "" && !unusable
      ensures this.log == log && this.bases == bases && this.closing == closing
    {
      this.k, this.settings, this.vol := k, settings, vol;
      durable, cursor, this.segments := c, c, segments;
      staged, stagedBytes, unusable := [], "", false;
      from := |vol.history| - 1;
      this.log, this.bases, this.closing := log, bases, closing;
    }

    /** The start predecessor is anchored once, before the first message. A failed cursor write stops the producer. */
    method Anchor(predecessor: Trade) returns (r: Result<()>)
      requires Valid() && !unusable
      modifies this`cursor, this`durable, vol
      ensures Sound() && (vol.faults == old(vol.faults) ==> Valid())
      ensures var allowed := predecessor.Valid() && old(cursor).predecessor.None? && old(cursor).v.index == 0
                             && staged == [] && predecessor.ts < old(cursor).start;
              && (r.Ok? ==> allowed && durable == cursor == old(cursor).(predecessor := Some(predecessor)))
              && (r.Err? ==> cursor == old(cursor) && durable == old(durable))
              && (r.Err? ==> r.code == if !predecessor.Valid() then 23 else if allowed then 22 else 20)
              && (vol.faults == old(vol.faults) ==> (r.Ok? <==> allowed))
    {
      hide Consistent, Clean, SafeHistory, Running, Observed, Visible, Guarded, Recoverable, Bytes, Follows,
           ValidCursor;
      if !predecessor.Valid() {
        return Err(23);
      }
      if cursor.predecessor.Some? || cursor.v.index != 0 || staged != [] || predecessor.ts >= cursor.start {
        return Err(20);
      }
      var next := cursor.(predecessor := Some(predecessor));
      ghost var before, disk := vol.history, vol.disk;
      ConsistentFacts(k, durable, cursor, segments, staged, log, bases, closing);
      assert log == [] && log + staged == [];
      var ok := vol.ReplaceCursor(next, vol.mark);
      AnchorRecorded(k, before, vol.history, from, vol.mark, disk, durable, segments, bases, closing, predecessor);
      if !ok {
        return Err(22);
      }
      durable, cursor := next, next;
      return Ok(());
    }

    method Stage(line: string, proof: Option<Bar>) returns (r: Result<()>)
      requires Valid()
      modifies this`cursor, this`staged, this`stagedBytes, this`closing
      ensures Valid()
      ensures r.Ok? <==> Staged(k, old(cursor), line, proof).Ok?
      ensures r.Ok? ==> cursor == Staged(k, old(cursor), line, proof).value && staged == old(staged) + [line]
      ensures r.Ok? ==> closing == (old(closing) && (proof.Some? ==> cursor.v.cut > old(cursor).v.cut))
      ensures r.Err? ==> cursor == old(cursor) && staged == old(staged) && stagedBytes == old(stagedBytes)
                         && closing == old(closing)
    {
      hide Consistent, Clean, SafeHistory, Running;
      var next :- Staged(k, cursor, line, proof);
      ghost var still := closing && (proof.Some? ==> next.v.cut > cursor.v.cut);
      ghost var all := log + staged;
      StageConsistent(k, durable, cursor, segments, staged, log, bases, closing, line, proof, still);
      assert log + (staged + [line]) == all + [line];
      SafeHistoryGrows(k, vol.history, all, all + [line], closing, still);
      RunGrows(vol.history, from, all, all + [line]);
      cursor, staged, stagedBytes, closing := next, staged + [line], stagedBytes + line + "\n", still;
      return Ok(());
    }

    /** Group commit: one append, one cursor replacement, then sealing and retention, then the lines are released.
        Whatever fails, no line is given up that the retention rule keeps. */
    method Flush() returns (r: Result<seq<string>>)
      requires Valid()
      modifies this, vol
      ensures Valid()
      ensures old(staged) == [] ==> r == Ok([]) && log == old(log) && durable == old(durable) && cursor == old(cursor)
                                    && segments == old(segments) && vol.history == old(vol.history)
      ensures old(staged) != [] && old(unusable) ==> r == Err(22) && log == old(log) && vol.disk == old(vol.disk)
      ensures vol.faults == old(vol.faults) && !old(unusable) ==> r.Ok?
      ensures r.Ok? ==> r.value == old(staged) && log == old(log) + r.value && staged == []
                        && !(old(staged) != [] && unusable)
      ensures r.Ok? ==> cursor == old(cursor).(segment := cursor.segment) && (old(staged) != [] ==> durable == cursor)
      ensures r.Ok? && old(staged) != [] ==> vol.mark.released == |log|
      ensures r.Ok? && old(staged) != [] ==> segments == Settled(settings, k.mode, old(cursor), old(segments))
                                             && vol.mark.First() == FirstLine(segments)
      ensures r.Ok? && old(staged) != [] ==> SettledByRule(settings, k.mode, old(cursor), old(segments), segments)
      ensures old(vol.mark).First() <= vol.mark.First()
      ensures vol.mark.First() <= old(vol.mark).First()
              || vol.mark.First() <= FirstLine(Settled(settings, k.mode, old(cursor), old(segments)))
      ensures r.Err? ==> r.code == 22 && unusable && (log == old(log) || (log == old(log + staged) && staged == []))
                         && vol.mark.released == old(vol.mark).released
      ensures closing == old(closing)
    {
      hide Consistent, Clean, SafeHistory, Running, Bytes, Follows, Guarded, ValidCursor, Settled, SettledByRule;
      if staged == [] {
        assert log + [] == log;
        return Ok([]);
      }
      if unusable {
        return Err(22);
      }
      unusable := true;
      ghost var disk := vol.disk;
      ConsistentFacts(k, durable, cursor, segments, staged, log, bases, closing);
      var ok := AppendStaged();
      if !ok {
        return Err(22);
      }
      var lines := staged;
      ok := CommitCursor(disk);
      if !ok {
        return Err(22);
      }
      ok := Settle();
      if !ok {
        return Err(22);
      }
      unusable := false;
      ReleaseAll();
      return Ok(lines);
    }

    ghost method ReleaseAll()
      requires Sound() && Tidy() && staged == []
      modifies vol`mark, vol`history
      ensures Sound() && Tidy() && vol.mark == old(vol.mark).(released := |log|)
    {
      hide Consistent, Clean, SafeHistory, Running, Guarded, Recoverable;
      ghost var before := vol.history;
      ConsistentFacts(k, durable, cursor, segments, staged, log, bases, closing);
      CleanIsRecoverable(k, vol.disk, durable, log, bases);
      NothingBehind(k, vol.disk, durable, log, bases);
      vol.Release(|log|);
      HistoryOnce(k, before, vol.history, Snapshot(vol.disk, vol.mark), log, log, closing);
      RunSame(before, vol.history, from, log);
    }

    /** Seals a full segment and expires old ones: the lines are committed, only files can be left behind. */
    method Settle() returns (ok: bool)
      requires Sound() && Tidy() && staged == [] && durable.segment < |log|
      modifies this`durable, this`cursor, this`segments, this`bases, vol
      ensures Sound() && (ok ==> Tidy())
      ensures vol.faults == old(vol.faults) ==> ok
      ensures durable == cursor == old(durable).(segment := durable.segment)
      ensures vol.mark.released == old(vol.mark).released && old(vol.faults) <= vol.faults
      ensures ok ==> segments == Settled(settings, k.mode, old(durable), old(segments))
                     && vol.mark.First() == FirstLine(segments)
      ensures ok ==> SettledByRule(settings, k.mode, old(durable), old(segments), segments)
      ensures old(vol.mark).First() <= vol.mark.First()
              <= FirstLine(Settled(settings, k.mode, old(durable), old(segments)))
    {
      hide Consistent, Clean, SafeHistory, Running, Expiring, Bytes, Follows, Guarded, ValidCursor, SettledByRule;
      ok := true;
      ghost var c, table := durable, segments;
      ConsistentFacts(k, durable, cursor, segments, staged, log, bases, closing);
      SettledTable(k, settings, durable, cursor, segments, staged, log, bases, closing);
      SettledFollowsRule(settings, k.mode, c, table);
      if durable.v.bytes - segments[|segments| - 1].bytes >= settings.segmentBytes {
        ok := Rotate();
      }
      if ok {
        SameExpiring(settings, k.mode, c, durable, segments);
        ok := Retain();
      }
    }

    /** The first durable effect of a commit: any prefix of the staged bytes may reach the disk. */
    method AppendStaged() returns (ok: bool)
      requires Sound() && Tidy()
      modifies vol
      ensures Sound() && Listed() && vol.mark == old(vol.mark) && old(vol.faults) <= vol.faults
      ensures vol.faults == old(vol.faults) ==> ok
      ensures ok ==> vol.faults == old(vol.faults)
      ensures durable.segment in old(vol.disk).segments
      ensures ok ==> vol.disk == Appended(old(vol.disk), durable.segment, stagedBytes)
    {
      hide Consistent, Clean, SafeHistory, Running, Guarded, Recoverable, Follows, ValidCursor, Bytes;
      ghost var before := vol.history;
      ConsistentFacts(k, durable, cursor, segments, staged, log, bases, closing);
      NothingBehind(k, vol.disk, durable, log, bases);
      ok := vol.Append(durable.segment, stagedBytes);
      AppendRecorded(k, before, vol.history, from, old(vol.mark), old(vol.disk), durable, log, staged, bases, closing,
                     stagedBytes);
    }

    /** The second: the cursor replacement that commits the appended lines. */
    method CommitCursor(ghost disk: Disk) returns (ok: bool)
      requires Sound() && Listed() && Clean(k, disk, durable, log, bases)
      requires durable.segment in disk.segments && vol.disk == Appended(disk, durable.segment, Bytes(staged))
      modifies this`durable, this`log, this`staged, this`stagedBytes, vol
      ensures Sound() && vol.mark == old(vol.mark) && old(vol.faults) <= vol.faults
      ensures vol.faults == old(vol.faults) ==> ok
      ensures ok ==> vol.faults == old(vol.faults)
      ensures ok ==> Tidy() && durable == cursor && log == old(log + staged) && staged == []
      ensures !ok ==> durable == old(durable) && log == old(log) && staged == old(staged)
                      && stagedBytes == old(stagedBytes)
    {
      hide Consistent, Clean, SafeHistory, Running, Bytes, Follows, ValidCursor, Guarded;
      ghost var before := vol.history;
      ConsistentFacts(k, durable, cursor, segments, staged, log, bases, closing);
      ok := vol.ReplaceCursor(cursor, vol.mark);
      CommitRecorded(k, before, vol.history, from, vol.mark, disk, durable, cursor, segments, staged, log, bases,
                     closing);
      if ok {
        NoBytes();
        durable, log, staged, stagedBytes := cursor, log + staged, [], "";
      }
    }

    /** Seals the open segment: its successor's checkpoint, the empty successor, then the cursor that names it. */
    method Rotate() returns (ok: bool)
      requires Sound() && Tidy() && staged == [] && durable.segment < |log|
      modifies this`durable, this`cursor, this`segments, this`bases, vol
      ensures Sound() && (ok ==> Tidy())
      ensures vol.faults == old(vol.faults) ==> ok
      ensures durable == cursor == old(durable).(segment := durable.segment) && old(vol.faults) <= vol.faults
      ensures vol.mark.released == old(vol.mark).released && vol.mark.First() == old(vol.mark).First()
      ensures ok ==> segments == old(segments) + [SegmentOf(durable.v)] && durable.segment == durable.v.index == |log|
      ensures ok ==> vol.faults == old(vol.faults)
      ensures !ok ==> segments == old(segments) && durable.segment == old(durable).segment
    {
      ghost var disk := vol.disk;
      ok := WriteSuccessorCheckpoint();
      if ok {
        ok := CreateSuccessor(disk);
      }
      if ok {
        ok := OpenSuccessor(disk);
      }
    }

    method WriteSuccessorCheckpoint() returns (ok: bool)
      requires Sound() && Tidy() && staged == [] && durable.segment < |log|
      modifies vol
      ensures Sound() && vol.mark == old(vol.mark) && old(vol.faults) <= vol.faults
      ensures vol.faults == old(vol.faults) ==> ok
      ensures ok ==> vol.disk == Renamed(old(vol.disk), |log|, Named(durable)) && vol.faults == old(vol.faults)
    {
      hide Consistent, Clean, SafeHistory, Running, Guarded, Recoverable;
      ghost var disk, before := vol.disk, vol.history;
      ConsistentFacts(k, durable, cursor, segments, staged, log, bases, closing);
      NothingBehind(k, disk, durable, log, bases);
      SealSteps(k, disk, durable, log, bases);
      ok := vol.ReplaceCheckpoint(durable.v.index,
                                  Checkpoint(durable.epoch, durable.start, durable.predecessor, durable.v));
      HistoryStep(k, before, vol.history, iset{Written(disk, |log|), Renamed(disk, |log|, Named(durable))},
                  durable, vol.mark, log + staged, log, closing);
      RunSame(before, vol.history, from, log + staged);
    }

    method CreateSuccessor(ghost disk: Disk) returns (ok: bool)
      requires Sound() && Listed() && staged == [] && durable.segment < |log|
      requires Clean(k, disk, durable, log, bases) && vol.disk == Renamed(disk, |log|, Named(durable))
      modifies vol
      ensures Sound() && vol.mark == old(vol.mark) && old(vol.faults) <= vol.faults
      ensures vol.faults == old(vol.faults) ==> ok
      ensures ok ==> vol.disk == Created(disk, durable, |log|) && vol.faults == old(vol.faults)
    {
      hide Consistent, Clean, SafeHistory, Running;
      ghost var before := vol.history;
      ConsistentFacts(k, durable, cursor, segments, staged, log, bases, closing);
      NothingBehind(k, disk, durable, log, bases);
      CleanFiles(k, disk, durable, log, bases);
      ok := vol.CreateSegment(durable.v.index);
      CreateRecorded(k, before, vol.history, from, vol.mark, disk, durable, log, bases, closing);
    }

    method OpenSuccessor(ghost disk: Disk) returns (ok: bool)
      requires Sound() && Listed() && staged == [] && durable.segment < |log|
      requires Clean(k, disk, durable, log, bases) && vol.disk == Created(disk, durable, |log|)
      modifies this`durable, this`cursor, this`segments, this`bases, vol
      ensures Sound() && (ok ==> Tidy()) && old(vol.faults) <= vol.faults
      ensures vol.mark.released == old(vol.mark).released && vol.mark.First() == old(vol.mark).First()
      ensures vol.faults == old(vol.faults) ==> ok
      ensures ok ==> vol.faults == old(vol.faults)
      ensures ok ==> segments == old(segments) + [SegmentOf(durable.v)]
                     && durable == cursor == old(durable).(segment := |log|)
      ensures ok ==> durable.v.index == |log|
      ensures !ok ==> segments == old(segments) && durable == old(durable) && cursor == old(cursor)
    {
      hide Consistent, Clean, SafeHistory, Running, Guarded, Recoverable, Bytes, Follows, ValidCursor;
      ghost var before, to := vol.history, vol.mark.(begun := vol.mark.begun + [|log|]);
      ConsistentFacts(k, durable, cursor, segments, staged, log, bases, closing);
      var rotated := durable.(segment := durable.v.index);
      ok := vol.ReplaceCursor(rotated, to);
      BegunNext(old(vol.mark), bases, |log|);
      OpenRecorded(k, before, vol.history, from, old(vol.mark), disk, durable, segments, log, bases, closing);
      if ok {
        segments := segments + [Segment(durable.v.index, durable.v.bytes, durable.v.lastId, durable.v.cut,
                                        durable.v.lastTickTs)];
        durable, cursor := rotated, rotated;
        bases := bases + [|log|];
      }
    }

    /** Expires the oldest sealed segments over the byte or venue-time budget, down to the protected window. */
    method Retain() returns (ok: bool)
      requires Sound() && Tidy() && staged == []
      modifies this`segments, this`bases, vol
      ensures Sound() && (ok ==> Tidy())
      ensures vol.faults == old(vol.faults) ==> ok
      ensures vol.mark.released == old(vol.mark).released && old(vol.faults) <= vol.faults
      ensures old(segments) != []
      ensures ok ==> segments == old(segments)[Expiring(settings, k.mode, durable, old(segments))..]
                     && vol.mark.First() == FirstLine(segments)
      ensures ok ==> RetainedByRule(settings, k.mode, durable, old(segments), segments)
      ensures old(vol.mark).First() <= vol.mark.First()
              <= old(segments)[Expiring(settings, k.mode, durable, old(segments))].base
    {
      hide Consistent, Clean, SafeHistory, Running, Bytes, Expires, RetainedByRule;
      FirstIsListed(k, vol.mark, durable, cursor, segments, staged, log, bases, closing);
      ExpiringFollowsRule(settings, k.mode, durable, segments);
      ok := ExpireAll();
    }

    method ExpireAll() returns (ok: bool)
      requires Sound() && Tidy() && staged == [] && segments != [] && AscendingTable(segments)
      requires vol.mark.First() == segments[0].base
      modifies this`segments, this`bases, vol
      ensures Sound() && (ok ==> Tidy())
      ensures vol.faults == old(vol.faults) ==> ok
      ensures vol.mark.released == old(vol.mark).released && old(vol.faults) <= vol.faults
      ensures ok ==> segments == old(segments)[Expiring(settings, k.mode, durable, old(segments))..]
                     && vol.mark.First() == FirstLine(segments)
      ensures old(vol.mark).First() <= vol.mark.First()
              <= old(segments)[Expiring(settings, k.mode, durable, old(segments))].base
    {
      hide Sound, Tidy, Expires;
      ghost var dropped := 0;
      while |segments| > 1
        invariant Sound() && Tidy()
        invariant vol.faults == old(vol.faults) && vol.mark.released == old(vol.mark).released
        invariant dropped < |old(segments)| && segments == old(segments)[dropped..]
        invariant vol.mark.First() == segments[0].base
        invariant Expiring(settings, k.mode, durable, old(segments))
               == dropped + Expiring(settings, k.mode, durable, segments)
        decreases |segments|
      {
        if !Expires(settings, k.mode, durable, segments[0], segments[1]) {
          break;
        }
        ok := ExpireOldest();
        if !ok {
          return;
        }
        dropped := dropped + 1;
      }
      ok := true;
    }

    method ExpireOldest() returns (ok: bool)
      requires Sound() && Tidy() && staged == [] && |segments| > 1
      requires Expires(settings, k.mode, durable, segments[0], segments[1])
      modifies this`segments, this`bases, vol
      ensures Sound() && (ok ==> Tidy()) && old(vol.faults) <= vol.faults
      ensures vol.mark.released == old(vol.mark).released
      ensures vol.mark.First() == old(vol.mark).First() || vol.mark.First() == old(segments)[1].base
      ensures vol.faults == old(vol.faults) ==> ok
      ensures ok ==> vol.faults == old(vol.faults) && segments == old(segments)[1..]
                     && vol.mark.First() == segments[0].base
    {
      hide Consistent, Clean, SafeHistory, Running, Expires;
      ghost var disk := vol.disk;
      ConsistentFacts(k, durable, cursor, segments, staged, log, bases, closing);
      assert bases == [bases[0]] + bases[1..];
      var base := segments[0].base;
      ok := RemoveOldestSegment();
      if ok {
        ok := RemoveOldestCheckpoint(disk, base);
      }
    }

    method RemoveOldestSegment() returns (ok: bool)
      requires Sound() && Tidy() && staged == [] && |segments| > 1
      requires Expires(settings, k.mode, durable, segments[0], segments[1])
      modifies this`segments, this`bases, vol
      ensures Sound() && old(vol.faults) <= vol.faults
      ensures vol.mark.released == old(vol.mark).released
      ensures vol.mark.First() == old(vol.mark).First() || vol.mark.First() == old(segments)[1].base
      ensures vol.faults == old(vol.faults) ==> ok
      ensures ok ==> vol.faults == old(vol.faults) && segments == old(segments)[1..] && bases == old(bases)[1..]
      ensures ok ==> Listed() && vol.mark.First() == segments[0].base
      ensures ok ==> vol.disk == old(vol.disk).(segments := old(vol.disk).segments - {old(bases)[0]})
    {
      hide Consistent, Clean, SafeHistory, Running, Expires, Bytes, Guarded, Recoverable, Follows, ValidCursor;
      ghost var before, to := vol.history, vol.mark.(expired := vol.mark.expired + 1);
      ExpireStep(k, settings, vol.disk, durable, cursor, segments, staged, log, bases, closing);
      ExpiredNext(vol.mark, bases);
      ok := vol.RemoveSegment(segments[0].base, to);
      ExpireRecorded(k, before, vol.history, from, old(vol.mark), old(vol.disk), durable, log, bases, closing);
      if ok {
        segments, bases := segments[1..], bases[1..];
      }
    }

    method RemoveOldestCheckpoint(ghost disk: Disk, base: nat) returns (ok: bool)
      requires Sound() && Listed() && staged == [] && Clean(k, disk, durable, log, [base] + bases)
      requires vol.disk == disk.(segments := disk.segments - {base})
      modifies vol
      ensures Sound() && (ok ==> Tidy()) && vol.mark == old(vol.mark) && old(vol.faults) <= vol.faults
      ensures vol.faults == old(vol.faults) ==> ok
      ensures ok ==> vol.faults == old(vol.faults)
    {
      hide Consistent, Clean, SafeHistory, Running, Guarded, Follows, ValidCursor, Bytes;
      ghost var before := vol.history;
      ConsistentFacts(k, durable, cursor, segments, staged, log, bases, closing);
      NothingBehind(k, disk, durable, log, [base] + bases);
      ok := vol.RemoveCheckpoint(base);
      CheckpointRecorded(k, before, vol.history, from, vol.mark, disk, durable, base, log, bases, closing);
    }
  }
}
