/** Resuming from a disk step by step, and starting a new stream. */
module JournalRecovery {
  import opened Feed
  import opened Ordered
  import opened JournalFormat
  import opened Volumes
  import opened JournalSteps
  import opened Journal

  /** The retained segments and their checkpoints are untouched: only other files may have gone. */
  ghost predicate Keeps(d: Disk, e: Disk, c: Cursor) {
    && e.cursor == d.cursor
    && (forall base :: base in e.segments ==> base in d.segments && e.segments[base] == d.segments[base])
    && (forall base :: base in e.checkpoints ==> base in d.checkpoints && e.checkpoints[base] == d.checkpoints[base])
    && (forall base :: base in d.segments && base <= c.segment ==> base in e.segments)
    && (forall base :: base in d.checkpoints && base in d.segments && base <= c.segment ==> base in e.checkpoints)
  }

  predicate IsRetained(d: Disk, c: Cursor, base: nat) { base in d.segments && base <= c.segment }

  /** The disk without temporaries, rotation leftovers and half-expired checkpoints. */
  function Swept(d: Disk, c: Cursor): Disk {
    d.(segments := map base | base in d.segments && IsRetained(d, c, base) :: d.segments[base],
       checkpoints := map base | base in d.checkpoints && IsRetained(d, c, base) :: d.checkpoints[base],
       temporaries := {})
  }

  lemma KeepsRecoverable(k: Codec, d: Disk, e: Disk, log: seq<string>, bases: seq<nat>)
    requires Recoverable(k, d, log, bases) && Keeps(d, e, d.cursor.value)
    ensures Recoverable(k, e, log, bases) && e.cursor == d.cursor
  {
    var c := d.cursor.value;
    RetainedAreBases(k, d, log, bases);
    ContentFiles(k, d, c, log, bases);
    assert forall base :: base in bases ==> base in Retained(d, c);
    CleaningKeeps(k, d, e, log, bases);
  }

  lemma SweptFiles(k: Codec, d: Disk, log: seq<string>, bases: seq<nat>)
    requires Recoverable(k, d, log, bases)
    ensures var c := d.cursor.value;
            && Recoverable(k, Swept(d, c), log, bases) && Swept(d, c).cursor == d.cursor
            && forall base :: base in Swept(d, c).segments || base in Swept(d, c).checkpoints ==> base in bases
  {
    var c := d.cursor.value;
    RetainedAreBases(k, d, log, bases);
    assert forall base :: IsRetained(d, c, base) ==> base in Retained(d, c);
    KeepsRecoverable(k, d, Swept(d, c), log, bases);
  }

  lemma {:induction false} RebuildSame(k: Codec, d: Disk, e: Disk, c: Cursor, v: Verified, bases: seq<nat>, first: bool)
    requires forall base :: base in bases ==> base in d.segments && base in d.checkpoints
    requires forall base :: base in bases ==> base in e.segments && base in e.checkpoints
    requires forall base :: base in bases ==>
             e.segments[base] == d.segments[base] && e.checkpoints[base] == d.checkpoints[base]
    ensures Rebuild(k, d, c, v, bases, first) == Rebuild(k, e, c, v, bases, first)
    decreases |bases|
  {
    if bases != [] && (first || (d.checkpoints[bases[0]].v.index == bases[0] && d.checkpoints[bases[0]].v == v)) {
      var n := ReplaySegment(k, c, v, d.segments[bases[0]], |bases| == 1);
      if n.Ok? {
        RebuildSame(k, d, e, c, n.value, bases[1..], false);
      }
    }
  }

  method RemoveTemporaries(vol: Volume) returns (ok: bool)
    requires vol.Valid()
    modifies vol
    ensures vol.Valid() && vol.mark == old(vol.mark) && old(vol.history) <= vol.history
    ensures vol.disk == old(vol.disk).(temporaries := vol.disk.temporaries)
    ensures forall i :: |old(vol.history)| <= i < |vol.history| ==>
              vol.history[i].mark == vol.mark
                && vol.history[i].disk == old(vol.disk).(temporaries := vol.history[i].disk.temporaries)
    ensures ok ==> vol.faults == old(vol.faults) && vol.disk.temporaries == {}
    ensures !ok ==> vol.faults > old(vol.faults)
  {
    ok := true;
    while vol.disk.temporaries != {}
      invariant vol.Valid() && vol.mark == old(vol.mark) && old(vol.history) <= vol.history
      invariant vol.faults == old(vol.faults)
      invariant vol.disk == old(vol.disk).(temporaries := vol.disk.temporaries)
      invariant forall i :: |old(vol.history)| <= i < |vol.history| ==>
                  vol.history[i].mark == vol.mark
                    && vol.history[i].disk == old(vol.disk).(temporaries := vol.history[i].disk.temporaries)
      decreases |vol.disk.temporaries|
    {
      var base := Least(vol.disk.temporaries);
      ok := vol.RemoveTemporary(base);
      if !ok {
        return;
      }
    }
  }

  function Dropped(d: Disk, files: set<nat>): Disk {
    d.(segments := d.segments - files, checkpoints := d.checkpoints - files)
  }

  /** Removes one leftover: an uncommitted successor's files, or a half-expired checkpoint. */
  method RemoveLeftover(vol: Volume, c: Cursor, base: nat) returns (ok: bool)
    requires vol.Valid() && !IsRetained(vol.disk, c, base)
    modifies vol
    ensures vol.Valid() && vol.mark == old(vol.mark) && old(vol.history) <= vol.history
    ensures forall i :: |old(vol.history)| <= i < |vol.history| ==>
              vol.history[i].mark == vol.mark && Keeps(old(vol.disk), vol.history[i].disk, c)
    ensures ok ==> vol.faults == old(vol.faults) && vol.disk == Dropped(old(vol.disk), {base})
    ensures !ok ==> vol.faults > old(vol.faults)
  {
    if base > c.segment {
      ok := vol.RemoveSegment(base, vol.mark);
      if !ok {
        return;
      }
    } else {
      assert vol.disk.segments - {base} == vol.disk.segments;
    }
    ok := vol.RemoveCheckpoint(base);
  }

  /** Files after the cursor's open segment are an interrupted seal, and a lone oldest checkpoint is an interrupted
      expiry. */
  method RemoveLeftovers(vol: Volume, c: Cursor) returns (r: Result<seq<nat>>)
    requires vol.Valid()
    modifies vol
    ensures vol.Valid() && vol.mark == old(vol.mark) && old(vol.history) <= vol.history
    ensures forall i :: |old(vol.history)| <= i < |vol.history| ==>
              vol.history[i].mark == vol.mark && Keeps(old(vol.disk), vol.history[i].disk, c)
    ensures old(vol.faults) <= vol.faults
    ensures vol.faults == old(vol.faults) ==>
              r == if AnyRefused(old(vol.disk), c) then Err(21) else Ok(Ascending(Retained(old(vol.disk), c)))
    ensures vol.faults > old(vol.faults) ==> r == Err(22)
    ensures r.Ok? && old(vol.disk).temporaries == {} ==> vol.disk == Swept(old(vol.disk), c)
    ensures vol.faults == old(vol.faults) ==> Keeps(old(vol.disk), vol.disk, c)
  {
    hide Keeps, Refused, IsRetained, Members, Split, Dropped, Swept, Ascending, Retained;
    var listed := vol.disk;
    var files := Ascending(listed.segments.Keys + listed.checkpoints.Keys);
    var retained: seq<nat> := [];
    NothingSplit(listed, c);
    assert files[..0] == [];
    var i := 0;
    while i < |files|
      invariant 0 <= i <= |files|
      invariant vol.Valid() && vol.mark == old(vol.mark) && old(vol.history) <= vol.history
                && vol.faults == old(vol.faults)
      invariant forall j :: |old(vol.history)| <= j < |vol.history| ==>
                  vol.history[j].mark == vol.mark && Keeps(listed, vol.history[j].disk, c)
      invariant forall j :: 0 <= j < i ==> !Refused(listed, c, files[j])
      invariant vol.disk == Dropped(listed, Members(Split(listed, c, files[..i], false)))
      invariant retained == Split(listed, c, files[..i], true)
    {
      var base := files[i];
      DroppedSplit(listed, c, files, i);
      if Refused(listed, c, base) {
        RefusedFile(listed, c, base, i);
        return Err(21);
      }
      if IsRetained(listed, c, base) {
        retained := retained + [base];
      } else {
        ghost var before, disk := vol.history, vol.disk;
        var ok := RemoveLeftover(vol, c, base);
        KeepsTrans(listed, disk, before, vol.history, c, vol.mark);
        if !ok {
          return Err(22);
        }
      }
      i := i + 1;
    }
    assert files[..i] == files;
    SplitAll(listed, c);
    return Ok(retained);
  }

  function Members(files: seq<nat>): set<nat> { set base | base in files }

  /** The files of a list that are retained, or those that are not. */
  function Split(d: Disk, c: Cursor, files: seq<nat>, retained: bool): seq<nat> {
    if files == [] then []
    else
      var rest := Split(d, c, files[..|files| - 1], retained);
      var base := files[|files| - 1];
      if IsRetained(d, c, base) == retained then rest + [base] else rest
  }

  lemma {:induction false} SplitMembers(d: Disk, c: Cursor, files: seq<nat>, retained: bool)
    ensures forall base :: base in Split(d, c, files, retained) <==> base in files && IsRetained(d, c, base) == retained
  {
    if files != [] {
      SplitMembers(d, c, files[..|files| - 1], retained);
      assert files == files[..|files| - 1] + [files[|files| - 1]];
    }
  }

  lemma {:induction false} SplitAscends(d: Disk, c: Cursor, files: seq<nat>)
    requires forall i, j :: 0 <= i < j < |files| ==> files[i] < files[j]
    ensures forall i, j :: 0 <= i < j < |Split(d, c, files, true)| ==>
            Split(d, c, files, true)[i] < Split(d, c, files, true)[j]
  {
    if files != [] {
      var front := files[..|files| - 1];
      SplitAscends(d, c, front);
      SplitMembers(d, c, front, true);
      assert forall base :: base in front ==> base < files[|files| - 1];
      assert forall i :: 0 <= i < |Split(d, c, front, true)| ==> Split(d, c, front, true)[i] in front;
    }
  }

  lemma NothingSplit(listed: Disk, c: Cursor)
    ensures Split(listed, c, [], true) == []
    ensures Dropped(listed, Members(Split(listed, c, [], false))) == listed && Keeps(listed, listed, c)
  {
    assert listed.segments - {} == listed.segments && listed.checkpoints - {} == listed.checkpoints;
  }

  /** One step of the sweep, seen from the listing. */
  lemma DroppedSplit(listed: Disk, c: Cursor, files: seq<nat>, i: nat)
    requires i <= |files|
    ensures var gone := Members(Split(listed, c, files[..i], false));
            && Keeps(listed, Dropped(listed, gone), c)
            && (gone == {} ==> Dropped(listed, gone) == listed)
            && (i < |files| && !IsRetained(listed, c, files[i]) ==>
                  && !IsRetained(Dropped(listed, gone), c, files[i])
                  && Dropped(Dropped(listed, gone), {files[i]})
                     == Dropped(listed, Members(Split(listed, c, files[..i + 1], false)))
                  && Split(listed, c, files[..i + 1], true) == Split(listed, c, files[..i], true))
            && (i < |files| && IsRetained(listed, c, files[i]) ==>
                  && Split(listed, c, files[..i + 1], true) == Split(listed, c, files[..i], true) + [files[i]]
                  && Split(listed, c, files[..i + 1], false) == Split(listed, c, files[..i], false))
  {
    var gone := Members(Split(listed, c, files[..i], false));
    SplitMembers(listed, c, files[..i], false);
    if i < |files| {
      assert files[..i + 1][..i] == files[..i];
      if !IsRetained(listed, c, files[i]) {
        assert Members(Split(listed, c, files[..i + 1], false)) == gone + {files[i]};
        assert listed.segments - gone - {files[i]} == listed.segments - (gone + {files[i]});
        assert listed.checkpoints - gone - {files[i]} == listed.checkpoints - (gone + {files[i]});
      }
    }
  }

  lemma RefusedFile(d: Disk, c: Cursor, base: nat, i: nat)
    requires var files := Ascending(d.segments.Keys + d.checkpoints.Keys); i < |files| && files[i] == base
    requires Refused(d, c, base)
    ensures AnyRefused(d, c)
  {
    AscendingMembers(d.segments.Keys + d.checkpoints.Keys);
  }

  lemma SplitAll(d: Disk, c: Cursor)
    ensures var files := Ascending(d.segments.Keys + d.checkpoints.Keys);
            && Split(d, c, files, true) == Ascending(Retained(d, c))
            && (d.temporaries == {} ==> Dropped(d, Members(Split(d, c, files, false))) == Swept(d, c))
            && ((forall i :: 0 <= i < |files| ==> !Refused(d, c, files[i])) ==> !AnyRefused(d, c))
  {
    var files := Ascending(d.segments.Keys + d.checkpoints.Keys);
    AscendingMembers(d.segments.Keys + d.checkpoints.Keys);
    SplitRetained(d, c, files);
    SplitDropped(d, c, files);
    hide Refused;
    if forall i :: 0 <= i < |files| ==> !Refused(d, c, files[i]) {
      assert forall base :: base in files ==> !Refused(d, c, base);
    }
  }

  lemma SplitRetained(d: Disk, c: Cursor, files: seq<nat>)
    requires forall i, j :: 0 <= i < j < |files| ==> files[i] < files[j]
    requires forall base :: base in d.segments.Keys + d.checkpoints.Keys <==> base in files
    ensures Split(d, c, files, true) == Ascending(Retained(d, c))
  {
    SplitMembers(d, c, files, true);
    SplitAscends(d, c, files);
    assert forall base :: base in Retained(d, c) <==> base in Split(d, c, files, true);
    AscendingIsUnique(Retained(d, c), Split(d, c, files, true));
  }

  lemma SplitDropped(d: Disk, c: Cursor, files: seq<nat>)
    requires forall base :: base in d.segments.Keys + d.checkpoints.Keys <==> base in files
    ensures d.temporaries == {} ==> Dropped(d, Members(Split(d, c, files, false))) == Swept(d, c)
  {
    SplitMembers(d, c, files, false);
    var gone := Members(Split(d, c, files, false));
    assert d.segments - gone == Swept(d, c).segments;
    assert d.checkpoints - gone == Swept(d, c).checkpoints;
  }

  lemma KeepsTrans(listed: Disk, disk: Disk, before: seq<Snapshot>, after: seq<Snapshot>, c: Cursor, mark: Mark)
    requires Keeps(listed, disk, c) && before <= after
    requires forall i :: |before| <= i < |after| ==> after[i].mark == mark && Keeps(disk, after[i].disk, c)
    ensures forall i :: |before| <= i < |after| ==> after[i].mark == mark && Keeps(listed, after[i].disk, c)
  {
  }

  /** Reads whole lines up to the limit and verifies each one. */
  method ReplayFile(k: Codec, c: Cursor, v: Verified, content: string, open: bool) returns (r: Result<Verified>)
    ensures r == ReplaySegment(k, c, v, content, open)
  {
    if open && c.v.bytes < v.bytes {
      return Err(21);
    }
    var limit := if open then c.v.bytes - v.bytes else |content|;
    if |content| < limit {
      return Err(21);
    }
    var state, offset := v, 0;
    while offset < limit
      invariant offset <= |content|
      invariant ReplayBytes(k, c.predecessor, v, content, 0, limit)
             == ReplayBytes(k, c.predecessor, state, content, offset, limit)
    {
      var p := Newline(content, offset);
      if p == |content| || p - offset > 4095 || p + 1 > limit {
        return Err(21);
      }
      state :- Step(k, c.predecessor, state, content[offset..p]);
      offset := p + 1;
    }
    return Ok(state);
  }

  function Prepend(table: seq<Segment>, rest: Result<seq<Segment>>): Result<seq<Segment>> {
    match rest
    case Ok(more) => Ok(table + more)
    case Err(e) => Err(e)
  }

  /** Replays the retained segments in order, each against its checkpoint. */
  method RebuildTable(k: Codec, d: Disk, c: Cursor, first: Verified, bases: seq<nat>) returns (r: Result<seq<Segment>>)
    requires forall base :: base in bases ==> base in d.segments && base in d.checkpoints
    ensures r == Rebuild(k, d, c, first, bases, true)
  {
    var table: seq<Segment>, v, i := [], first, 0;
    assert bases[0..] == bases;
    PrependNothing(Rebuild(k, d, c, first, bases, true));
    while i < |bases|
      invariant 0 <= i <= |bases|
      invariant Rebuild(k, d, c, first, bases, true) == Prepend(table, Rebuild(k, d, c, v, bases[i..], i == 0))
    {
      var base := bases[i];
      assert bases[i..][0] == base && bases[i..][1..] == bases[i + 1..];
      if i > 0 && (d.checkpoints[base].v.index != base || d.checkpoints[base].v != v) {
        return Err(21);
      }
      var entry := Segment(base, v.bytes, v.lastId, v.cut, v.lastTickTs);
      var n := ReplayFile(k, c, v, d.segments[base], i + 1 == |bases|);
      if n.Err? {
        return Err(n.code);
      }
      PrependTwice(table, entry, Rebuild(k, d, c, n.value, bases[i + 1..], false));
      table, v, i := table + [entry], n.value, i + 1;
    }
    assert bases[i..] == [];
    if v != c.v {
      return Err(21);
    }
    assert table + [] == table;
    return Ok(table);
  }

  lemma PrependNothing(rest: Result<seq<Segment>>)
    ensures Prepend([], rest) == rest
  {
    if rest.Ok? {
      assert [] + rest.value == rest.value;
    }
  }

  lemma PrependTwice(table: seq<Segment>, entry: Segment, rest: Result<seq<Segment>>)
    ensures Prepend(table + [entry], rest) == Prepend(table, Prepend([entry], rest))
  {
    if rest.Ok? {
      assert table + [entry] + rest.value == table + ([entry] + rest.value);
    }
  }

  /** The open segment cut back to the cursor. */
  function RolledBack(d: Disk, c: Cursor, from: nat): Disk {
    if c.segment in d.segments && from <= c.v.bytes && c.v.bytes - from <= |d.segments[c.segment]|
    then Truncated(d, c.segment, c.v.bytes - from) else d
  }

  /** The sweep leaves the table's files as they were. */
  lemma TableSame(k: Codec, d: Disk, c: Cursor)
    requires !AnyRefused(d, c)
    ensures var e, bases := Swept(d, c), Ascending(Retained(d, c));
            && (forall base :: base in bases ==> base in d.segments && base in d.checkpoints)
            && (forall base :: base in bases ==> base in e.segments && base in e.checkpoints)
            && Table(k, d, c, bases) == Table(k, e, c, bases)
  {
    var e, bases := Swept(d, c), Ascending(Retained(d, c));
    AcceptedFiles(d, c);
    AscendingMembers(Retained(d, c));
    assert forall base :: base in bases ==> base in Retained(d, c);
    if bases != [] {
      RebuildSame(k, d, e, c, d.checkpoints[bases[0]].v, bases, true);
    }
  }

  method ReadTable(k: Codec, d: Disk, c: Cursor, bases: seq<nat>) returns (r: Result<seq<Segment>>)
    requires forall base :: base in bases ==> base in d.segments && base in d.checkpoints
    ensures r == Table(k, d, c, bases)
    ensures r.Ok? ==> r.value != [] && c.segment in d.segments
                      && var from := r.value[|r.value| - 1].bytes;
                      from <= c.v.bytes && c.v.bytes - from <= |d.segments[c.segment]|
  {
    if bases == [] || bases[|bases| - 1] != c.segment {
      return Err(21);
    }
    var first := d.checkpoints[bases[0]];
    if first.v.index != bases[0] || first.epoch != c.epoch || first.start != c.start {
      return Err(21);
    }
    if first.predecessor.Some? && first.predecessor != c.predecessor {
      return Err(21);
    }
    r := RebuildTable(k, d, c, first.v, bases);
    if r.Ok? {
      OpenSegmentFits(k, d, c, first.v, bases, true);
    }
  }

  /** The last entry of an accepted table starts where the open segment's committed bytes start. */
  lemma {:induction false} OpenSegmentFits(k: Codec, d: Disk, c: Cursor, v: Verified, bases: seq<nat>, first: bool)
    requires forall base :: base in bases ==> base in d.segments && base in d.checkpoints
    requires bases != [] && Rebuild(k, d, c, v, bases, first).Ok?
    ensures var table := Rebuild(k, d, c, v, bases, first).value;
            && table != [] && var from := table[|table| - 1].bytes;
            from <= c.v.bytes && c.v.bytes - from <= |d.segments[bases[|bases| - 1]]|
    decreases |bases|
  {
    if |bases| > 1 {
      var n := ReplaySegment(k, c, v, d.segments[bases[0]], false).value;
      OpenSegmentFits(k, d, c, n, bases[1..], false);
    }
  }

  /** Removes temporaries and leftovers, and lists the retained segments. */
  method Sweep(vol: Volume, c: Cursor) returns (r: Result<seq<nat>>)
    requires vol.Valid()
    modifies vol
    ensures vol.Valid() && vol.mark == old(vol.mark) && old(vol.history) <= vol.history && old(vol.faults) <= vol.faults
    ensures forall i :: |old(vol.history)| <= i < |vol.history| ==>
              vol.history[i].mark == vol.mark && Keeps(old(vol.disk), vol.history[i].disk, c)
    ensures vol.faults == old(vol.faults) ==> Keeps(old(vol.disk), vol.disk, c)
    ensures vol.faults == old(vol.faults) ==>
              r == if AnyRefused(old(vol.disk), c) then Err(21) else Ok(Ascending(Retained(old(vol.disk), c)))
    ensures vol.faults > old(vol.faults) ==> r == Err(22)
    ensures r.Ok? ==> vol.disk == Swept(old(vol.disk), c)
  {
    hide Keeps, Refused, Ascending;
    ghost var disk := vol.disk;
    var ok := RemoveTemporaries(vol);
    ghost var plain := vol.disk;
    SameBut(disk, plain, c);
    assert forall i :: |old(vol.history)| <= i < |vol.history| ==> Keeps(disk, vol.history[i].disk, c) by {
      forall i | |old(vol.history)| <= i < |vol.history|
        ensures Keeps(disk, vol.history[i].disk, c)
      {
        SameBut(disk, vol.history[i].disk, c);
      }
    }
    if !ok {
      return Err(22);
    }
    ghost var before := vol.history;
    r := RemoveLeftovers(vol, c);
    KeepsTrans(disk, plain, before, vol.history, c, vol.mark);
    KeepsOnce(disk, plain, vol.disk, c);
  }

  lemma SameBut(d: Disk, e: Disk, c: Cursor)
    requires e == d.(temporaries := e.temporaries)
    ensures Keeps(d, e, c) && AnyRefused(d, c) == AnyRefused(e, c) && Retained(d, c) == Retained(e, c)
    ensures Swept(d, c) == Swept(e, c)
  {
    assert forall base :: Refused(d, c, base) == Refused(e, c, base);
    assert forall base :: IsRetained(d, c, base) == IsRetained(e, c, base);
  }

  lemma KeepsOnce(d: Disk, e: Disk, f: Disk, c: Cursor)
    requires Keeps(d, e, c) && Keeps(e, f, c)
    ensures Keeps(d, f, c)
  {
  }

  /** Resuming: only a verified journal is changed, and the open segment's uncommitted tail goes last. */
  method Recover(k: Codec, vol: Volume) returns (r: Result<Recovered>)
    requires vol.Valid()
    modifies vol
    ensures vol.Valid() && vol.mark == old(vol.mark) && old(vol.history) <= vol.history && old(vol.faults) <= vol.faults
    ensures vol.faults == old(vol.faults) ==> r == Recovery(k, old(vol.disk))
    ensures vol.faults > old(vol.faults) ==> r == Err(22)
    ensures old(vol.disk).cursor.None? ==> vol.disk == old(vol.disk) && vol.history == old(vol.history)
    ensures old(vol.disk).cursor.Some? ==>
              var c := old(vol.disk).cursor.value;
              && (r.Ok? ==> RollsBack(k, old(vol.disk), vol.disk, c))
              && (r.Err? && vol.faults == old(vol.faults) ==> Keeps(old(vol.disk), vol.disk, c))
              && forall i :: |old(vol.history)| <= i < |vol.history| ==>
                   && vol.history[i].mark == vol.mark
                   && (Keeps(old(vol.disk), vol.history[i].disk, c)
                     || RollsBack(k, old(vol.disk), vol.history[i].disk, c))
  {
    hide Keeps, Table, AnyRefused, Ascending, Swept;
    if vol.disk.cursor.None? {
      return Err(22);
    }
    var c := vol.disk.cursor.value;
    SameBut(vol.disk, vol.disk, c);
    if !ValidCursor(c) {
      return Err(21);
    }
    ghost var disk := vol.disk;
    var bases :- Sweep(vol, c);
    TableSame(k, disk, c);
    var table :- ReadTable(k, vol.disk, c, bases);
    var ok := vol.Truncate(c.segment, c.v.bytes - table[|table| - 1].bytes);
    if !ok {
      return Err(22);
    }
    return Ok(Recovered(c, table));
  }

  /** The disk after the final truncation of an accepted recovery. */
  ghost predicate RollsBack(k: Codec, d: Disk, e: Disk, c: Cursor) {
    && Recovery(k, d).Ok? && Recovery(k, d).value.segments != []
    && var table := Recovery(k, d).value.segments;
    && e == RolledBack(Swept(d, c), c, table[|table| - 1].bytes)
  }

  // ---------- Resuming and starting a stream ----------

  /** Every disk of a recovery recovers to the same log, and the last one is clean. */
  lemma RollsBackClean(k: Codec, d: Disk, e: Disk, log: seq<string>, bases: seq<nat>)
    requires Recoverable(k, d, log, bases) && RollsBack(k, d, e, d.cursor.value)
    ensures Clean(k, e, d.cursor.value, log, bases) && Recoverable(k, e, log, bases) && e.cursor == d.cursor
  {
    hide Clean, Swept, Recovery, Replay, ValidLines, Holds, Bytes;
    var c := d.cursor.value;
    RecoveryIsComplete(k, d, log, bases);
    SweptFiles(k, d, log, bases);
    TruncationCleans(k, Swept(d, c), log, bases);
    CleanIsRecoverable(k, e, c, log, bases);
    NothingBehind(k, e, c, log, bases);
  }

  lemma RecoverySteps(k: Codec, s: Snapshot, before: seq<Snapshot>, after: seq<Snapshot>, log: seq<string>,
                      closing: bool)
    requires before != [] && before[|before| - 1] == s && Persisted(s.disk, |log|)
    requires SafeHistory(k, before, log, closing) && before <= after
    requires var c := s.disk.cursor.value;
             forall i :: |before| <= i < |after| ==>
               after[i].mark == s.mark && (Keeps(s.disk, after[i].disk, c) || RollsBack(k, s.disk, after[i].disk, c))
    ensures SafeHistory(k, after, log, closing) && Persisted(after[|after| - 1].disk, |log|)
  {
    hide Keeps, RollsBack, Recoverable, Guarded, Clean, SafeHistory;
    var c, bases := s.disk.cursor.value, s.mark.Bases();
    LastFacts(k, before, log, closing);
    forall d | Keeps(s.disk, d, c) || RollsBack(k, s.disk, d, c)
      ensures Recoverable(k, d, log, bases) && d.cursor == s.disk.cursor
    {
      if Keeps(s.disk, d, c) {
        KeepsRecoverable(k, s.disk, d, log, bases);
      } else {
        RollsBackClean(k, s.disk, d, log, bases);
      }
    }
    var disks := iset d | Keeps(s.disk, d, c) || RollsBack(k, s.disk, d, c);
    HistoryStep(k, before, after, disks, c, s.mark, log, log, closing);
  }

  /** The last snapshot of a safe history, when its cursor commits the whole log. */
  lemma LastFacts(k: Codec, history: seq<Snapshot>, log: seq<string>, closing: bool)
    requires history != [] && SafeHistory(k, history, log, closing) && Persisted(history[|history| - 1].disk, |log|)
    ensures var s := history[|history| - 1];
            && s.mark.Valid() && s.mark.released <= |log| && Recoverable(k, s.disk, log, s.mark.Bases())
            && s.mark.Bases() != [] && s.mark.Bases()[0] == s.mark.First()
            && Guarded(k, s.disk.cursor.value, log, s.mark.First(), closing)
  {
    var s := history[|history| - 1];
    assert Safe(k, s, log, closing);
    assert log[..|log|] == log;
  }

  /** What a run leaves when it stops: a safe history of the lines its last cursor commits. */
  ghost predicate CrashedAt(k: Codec, history: seq<Snapshot>, log: seq<string>, closing: bool) {
    history != [] && Persisted(history[|history| - 1].disk, |log|) && SafeHistory(k, history, log, closing)
  }

  ghost predicate Crashed(k: Codec, vol: Volume, log: seq<string>, closing: bool)
    reads vol
  {
    vol.Valid() && CrashedAt(k, vol.history, log, closing)
  }

  /** A run may stop at any snapshot of its history: it then has either committed nothing, and is a directory a new
      stream may take over, or it has crashed with the lines of that snapshot's cursor. */
  lemma EveryMomentIsACrash(k: Codec, history: seq<Snapshot>, all: seq<string>, closing: bool, n: nat)
    requires SafeHistory(k, history, all, closing) && 0 < n <= |history|
    ensures var s := history[n - 1];
            match s.disk.cursor
            case None => Unstarted(s.disk) && s.mark == Mark(0, [], 0) && SafeHistory(k, history[..n], [], true)
            case Some(c) => c.v.index <= |all| && CrashedAt(k, history[..n], all[..c.v.index], closing)
  {
    hide Recoverable, Guarded;
    var s := history[n - 1];
    assert Safe(k, s, all, closing);
    var size := if s.disk.cursor.Some? then s.disk.cursor.value.v.index else 0;
    forall i | 0 <= i < n
      ensures Safe(k, history[i], all[..size], if s.disk.cursor.Some? then closing else true)
    {
      assert Safe(k, history[i], all, closing) && Forward(history[i], s);
      if history[i].disk.cursor.Some? {
        assert all[..size][..history[i].disk.cursor.value.v.index] == all[..history[i].disk.cursor.value.v.index];
      }
    }
    assert all[..0] == [];
  }

  /** Resuming after a crash continues the same log at the last persisted cursor, and may itself crash at any step. */
  method Resume(k: Codec, settings: Settings, vol: Volume, ghost log: seq<string>, ghost closing: bool)
      returns (r: Result<State>)
    requires vol.Valid()
    modifies vol
    ensures r.Err? && vol.faults == old(vol.faults) ==> Recovery(k, old(vol.disk)) == Err(r.code)
    ensures old(vol.faults) <= vol.faults && vol.mark == old(vol.mark)
    ensures old(Crashed(k, vol, log, closing)) ==>
              && Crashed(k, vol, log, closing)
              && (vol.faults == old(vol.faults) ==> r.Ok?)
              && (r.Ok? ==> fresh(r.value) && r.value.Valid() && !r.value.unusable && r.value.vol == vol
                            && r.value.k == k
                            && r.value.log == log && r.value.bases == vol.mark.Bases() && r.value.staged == []
                            && r.value.closing == closing && r.value.settings == settings
                            && r.value.durable == r.value.cursor == old(vol.disk).cursor.value)
  {
    hide Clean, SafeHistory, Recoverable, Guarded, RollsBack, Keeps, Describes, Running, Consistent, Recovery;
    ghost var s, before := Snapshot(vol.disk, vol.mark), vol.history;
    ghost var crashed := Crashed(k, vol, log, closing);
    var recovered := Recover(k, vol);
    if crashed {
      RecoverySteps(k, s, before, vol.history, log, closing);
      LastAccepted(k, before, log, closing);
    }
    if recovered.Err? {
      return Err(recovered.code);
    }
    var state := new State.Restored(k, settings, vol, recovered.value.cursor, recovered.value.segments,
                                    log, vol.mark.Bases(), closing);
    if crashed {
      ResumedAfterCrash(k, before, vol.history, log, closing);
      NoBytes();
      assert log + [] == log;
    }
    return Ok(state);
  }

  lemma LastAccepted(k: Codec, history: seq<Snapshot>, log: seq<string>, closing: bool)
    requires history != [] && SafeHistory(k, history, log, closing) && Persisted(history[|history| - 1].disk, |log|)
    ensures Recovery(k, history[|history| - 1].disk).Ok?
  {
    var s := history[|history| - 1];
    LastFacts(k, history, log, closing);
    RecoveryIsComplete(k, s.disk, log, s.mark.Bases());
  }

  /** The state a resumed process starts from. */
  lemma ResumedAfterCrash(k: Codec, before: seq<Snapshot>, after: seq<Snapshot>, log: seq<string>, closing: bool)
    requires before != [] && SafeHistory(k, before, log, closing) && Persisted(before[|before| - 1].disk, |log|)
    requires after != [] && after[|after| - 1].mark == before[|before| - 1].mark
    requires RollsBack(k, before[|before| - 1].disk, after[|after| - 1].disk, before[|before| - 1].disk.cursor.value)
    ensures var s, e := before[|before| - 1], after[|after| - 1].disk;
            var bases, recovered := s.mark.Bases(), Recovery(k, s.disk);
            && s.mark.Valid() && s.mark.released <= |log| && recovered.Ok?
              && recovered.value.cursor == s.disk.cursor.value
            && Clean(k, e, s.disk.cursor.value, log, bases) && Persisted(e, |log|)
            && Consistent(k, s.disk.cursor.value, s.disk.cursor.value, recovered.value.segments, [], log, bases,
                          closing)
            && Running(after, |after| - 1, log) && e.cursor == s.disk.cursor
  {
    hide Clean, SafeHistory, Recoverable, Guarded, RollsBack, Describes, Running, Consistent, Recovery;
    var s, e := before[|before| - 1], after[|after| - 1].disk;
    var bases, recovered := s.mark.Bases(), Recovery(k, s.disk);
    LastFacts(k, before, log, closing);
    RecoveryIsComplete(k, s.disk, log, bases);
    RollsBackClean(k, s.disk, e, log, bases);
    ResumedConsistent(k, s.disk, recovered.value.segments, log, bases, closing);
    StartsRunning(k, after, s.disk.cursor.value, log, bases);
  }

  lemma StartsRunning(k: Codec, history: seq<Snapshot>, c: Cursor, log: seq<string>, bases: seq<nat>)
    requires history != [] && Clean(k, history[|history| - 1].disk, c, log, bases)
    ensures Running(history, |history| - 1, log) && history[|history| - 1].disk.cursor == Some(c)
  {
    NothingBehind(k, history[|history| - 1].disk, c, log, bases);
  }

  lemma ResumedConsistent(k: Codec, d: Disk, segments: seq<Segment>, log: seq<string>, bases: seq<nat>, closing: bool)
    requires Recoverable(k, d, log, bases) && Guarded(k, d.cursor.value, log, bases[0], closing)
    requires Describes(k, d.cursor.value, log, bases, segments)
    ensures Consistent(k, d.cursor.value, d.cursor.value, segments, [], log, bases, closing)
  {
    assert log + [] == log;
  }

  /** A new process on the directory of one that stopped between two calls, after a failed commit as well: it continues
      with every committed line, and with none that was not staged. */
  method Reopen(state: State) returns (r: Result<State>)
    requires state.Sound()
    modifies state.vol
    ensures var all := old(state.log + state.staged);
            && |old(state.log)| <= old(state.vol.disk).cursor.value.v.index <= |all|
            && (state.vol.faults == old(state.vol.faults) ==> r.Ok?)
            && (r.Ok? ==> fresh(r.value) && r.value.Valid() && !r.value.unusable && r.value.vol == state.vol
                          && r.value.log == all[..old(state.vol.disk).cursor.value.v.index]
                          && r.value.durable == r.value.cursor == old(state.vol.disk).cursor.value
                          && SameStream(old(state.durable), r.value.cursor)
                          && r.value.staged == [] && r.value.closing == old(state.closing)
                          && state.vol.mark == old(state.vol.mark) && r.value.bases == state.vol.mark.Bases())
  {
    hide Clean, SafeHistory, Running, Consistent;
    EveryMomentIsACrash(state.k, state.vol.history, state.log + state.staged, state.closing, |state.vol.history|);
    assert state.vol.history[..|state.vol.history|] == state.vol.history;
    ghost var log := (state.log + state.staged)[..state.vol.disk.cursor.value.v.index];
    r := Resume(state.k, state.settings, state.vol, log, state.closing);
  }

  /** The bytes of these segments, one after the other. */
  function Joined(d: Disk, bases: seq<nat>): string {
    if bases == [] then ""
    else (if bases[0] in d.segments then d.segments[bases[0]] else "") + Joined(d, bases[1..])
  }

  lemma {:induction false} CleanHoldsLog(k: Codec, d: Disk, c: Cursor, log: seq<string>, bases: seq<nat>, i: nat)
    requires Clean(k, d, c, log, bases) && i < |bases|
    ensures bases[i] <= |log| && Joined(d, bases[i..]) == Bytes(log[bases[i]..])
    decreases |bases| - i
  {
    hide Bytes, StateAt;
    assert Holds(k, d, c, log, bases, i);
    assert bases[i..][1..] == bases[i + 1..];
    if i + 1 < |bases| {
      CleanHoldsLog(k, d, c, log, bases, i + 1);
      assert log[bases[i]..] == log[bases[i]..bases[i + 1]] + log[bases[i + 1]..];
      BytesConcat(log[bases[i]..bases[i + 1]], log[bases[i + 1]..]);
    } else {
      assert bases[i + 1..] == [] && bases[i] == c.segment;
      assert d.segments[c.segment] + "" == d.segments[c.segment];
    }
  }

  /** Any disk a crash may leave: recovery accepts it, and the files it leaves are exactly the committed lines from the
      first that retention has not given up, every released message among them, with the newest print and the protected
      window. */
  lemma EveryCrashRecovers(k: Codec, history: seq<Snapshot>, all: seq<string>, closing: bool, i: nat)
    requires SafeHistory(k, history, all, closing) && i < |history| && history[i].disk.cursor.Some?
    ensures var d, mark := history[i].disk, history[i].mark;
            var c := d.cursor.value;
            && Recovery(k, d).Ok? && Recovery(k, d).value.cursor == c
            && mark.released <= c.v.index <= |all| && mark.First() <= c.v.index
            && var table := Recovery(k, d).value.segments;
            && Describes(k, c, all[..c.v.index], mark.Bases(), table)
            && FirstLine(table) == mark.First()
            && Joined(RolledBack(Swept(d, c), c, table[|table| - 1].bytes), mark.Bases())
               == Bytes(all[mark.First()..c.v.index])
            && Guarded(k, c, all[..c.v.index], mark.First(), closing)
  {
    hide Recoverable, Guarded, Clean, Bytes, Swept, RolledBack, Joined, Recovery, Content, StateAt;
    var d, mark := history[i].disk, history[i].mark;
    var c := d.cursor.value;
    assert Safe(k, history[i], all, closing);
    var log := all[..c.v.index];
    RecoveryIsComplete(k, d, log, mark.Bases());
    var table := Recovery(k, d).value.segments;
    RollsBackTo(k, d, log, mark.Bases());
    var e := RolledBack(Swept(d, c), c, table[|table| - 1].bytes);
    CleanHoldsLog(k, e, c, log, mark.Bases(), 0);
    assert mark.Bases()[0..] == mark.Bases();
    assert log[mark.First()..] == all[mark.First()..c.v.index];
    FirstOfTable(k, c, log, mark.Bases(), table);
  }

  lemma RollsBackTo(k: Codec, d: Disk, log: seq<string>, bases: seq<nat>)
    requires Recoverable(k, d, log, bases)
    ensures Recovery(k, d).Ok? && Recovery(k, d).value.segments != []
    ensures var c, table := d.cursor.value, Recovery(k, d).value.segments;
            Clean(k, RolledBack(Swept(d, c), c, table[|table| - 1].bytes), c, log, bases)
  {
    hide Clean, Swept, RolledBack, Recovery, StateAt, Replay, ValidLines, Holds, Bytes;
    RecoveryIsComplete(k, d, log, bases);
    var c, table := d.cursor.value, Recovery(k, d).value.segments;
    RollsBackClean(k, d, RolledBack(Swept(d, c), c, table[|table| - 1].bytes), log, bases);
  }

  lemma FirstOfTable(k: Codec, c: Cursor, log: seq<string>, bases: seq<nat>, table: seq<Segment>)
    requires Describes(k, c, log, bases, table) && bases != []
    ensures FirstLine(table) == bases[0]
  {
    ReplayCounts(k, c.predecessor, Genesis(k, c.start), log[..bases[0]]);
  }

  /** Nothing was ever committed here: no cursor, and no segment holds a byte. */
  predicate Unstarted(d: Disk) {
    d.cursor.None? && forall base :: base in d.segments ==> d.segments[base] == ""
  }

  method RemoveEverything(vol: Volume) returns (ok: bool)
    requires vol.Valid() && Unstarted(vol.disk)
    modifies vol
    ensures vol.Valid() && vol.mark == old(vol.mark) && old(vol.history) <= vol.history && old(vol.faults) <= vol.faults
    ensures forall i :: |old(vol.history)| <= i < |vol.history| ==>
              vol.history[i].mark == vol.mark && Unstarted(vol.history[i].disk)
    ensures ok ==> vol.disk == Disk(None, map[], map[], {})
    ensures vol.faults == old(vol.faults) <==> ok
  {
    ok := true;
    while vol.disk.segments.Keys + vol.disk.checkpoints.Keys + vol.disk.temporaries != {}
      invariant vol.Valid() && vol.mark == old(vol.mark) && old(vol.history) <= vol.history
      invariant vol.faults == old(vol.faults) && Unstarted(vol.disk)
      invariant forall i :: |old(vol.history)| <= i < |vol.history| ==>
                  vol.history[i].mark == vol.mark && Unstarted(vol.history[i].disk)
      decreases vol.disk.segments.Keys, vol.disk.checkpoints.Keys, vol.disk.temporaries
    {
      var base := Least(vol.disk.segments.Keys + vol.disk.checkpoints.Keys + vol.disk.temporaries);
      if base in vol.disk.segments {
        ok := vol.RemoveSegment(base, vol.mark);
      } else if base in vol.disk.checkpoints {
        ok := vol.RemoveCheckpoint(base);
      } else {
        ok := vol.RemoveTemporary(base);
      }
      if !ok {
        return;
      }
    }
    assert vol.disk.segments.Keys == {} && vol.disk.checkpoints.Keys == {};
  }

  /** The first cursor of a stream. */
  function FirstCursor(k: Codec, start: int, epoch: string): Cursor {
    Cursor(epoch, start, None, [], 0, Genesis(k, start))
  }

  /** A new stream: a directory whose initialization crashed may be taken over, a started one never. */
  method Create(k: Codec, settings: Settings, vol: Volume, start: int, epoch: string) returns (r: Result<State>)
    requires vol.Valid()
    modifies vol
    ensures start < 0 || start % MINUTE != 0 || !Unstarted(old(vol.disk)) ==> r == Err(23) && vol.disk == old(vol.disk)
    ensures 0 <= start && start % MINUTE == 0 && Unstarted(old(vol.disk)) && r.Err? ==> r.code == 22
    ensures 0 <= start && start % MINUTE == 0 && Unstarted(old(vol.disk)) && old(vol.mark) == Mark(0, [], 0)
            && SafeHistory(k, old(vol.history), [], true) ==>
              && SafeHistory(k, vol.history, [], true)
              && (vol.faults == old(vol.faults) ==> r.Ok?)
              && (r.Ok? ==> fresh(r.value) && r.value.Valid() && !r.value.unusable && r.value.vol == vol
                            && r.value.k == k
                            && r.value.log == [] && r.value.bases == [0] && r.value.staged == [] && r.value.closing
                            && r.value.durable == r.value.cursor == FirstCursor(k, start, epoch))
  {
    hide SafeHistory, Clean, Running, Consistent;
    if start < 0 || start % MINUTE != 0 {
      return Err(23);
    }
    if vol.disk.cursor.Some? || exists base :: base in vol.disk.segments && vol.disk.segments[base] != "" {
      return Err(23);
    }
    ghost var before := vol.history;
    var ok := RemoveEverything(vol);
    ghost var allowed := vol.mark == Mark(0, [], 0) && SafeHistory(k, before, [], true);
    if allowed {
      UnstartedSteps(k, before, vol.history);
    }
    if !ok {
      return Err(22);
    }
    var c := FirstCursor(k, start, epoch);
    ok := WriteFirstFiles(k, vol, c, allowed);
    if !ok {
      return Err(22);
    }
    var state := new State.Restored(k, settings, vol, c, [Segment(0, 0, 0, start, -1)], [], [0], true);
    FirstConsistent(k, start, epoch);
    StartsRunning(k, vol.history, c, [], [0]);
    NothingBehind(k, vol.disk, c, [], [0]);
    NoBytes();
    assert state.log + state.staged == [];
    return Ok(state);
  }

  lemma UnstartedSteps(k: Codec, before: seq<Snapshot>, after: seq<Snapshot>)
    requires before != [] && SafeHistory(k, before, [], true) && before <= after
    requires before[|before| - 1].disk.cursor.None? && before[|before| - 1].mark == Mark(0, [], 0)
    requires forall i :: |before| <= i < |after| ==> after[i].mark == Mark(0, [], 0) && Unstarted(after[i].disk)
    ensures SafeHistory(k, after, [], true)
  {
    hide Recoverable, Guarded;
    var last := before[|before| - 1];
    forall i | 0 <= i < |after|
      ensures Safe(k, after[i], [], true)
      ensures after[i].disk.cursor.None? && after[i].mark == Mark(0, [], 0)
    {
      if i < |before| {
        assert after[i] == before[i] && Forward(before[i], last) && Safe(k, before[i], [], true);
      }
    }
  }

  lemma FirstConsistent(k: Codec, start: int, epoch: string)
    requires 0 <= start && start % MINUTE == 0
    ensures var c := FirstCursor(k, start, epoch);
            Consistent(k, c, c, [Segment(0, 0, 0, start, -1)], [], [], [0], true)
  {
  }

  lemma FirstClean(k: Codec, start: int, epoch: string)
    requires 0 <= start && start % MINUTE == 0
    ensures var c := FirstCursor(k, start, epoch);
            var d := Disk(Some(c), map[0 := ""], map[0 := Checkpoint(epoch, start, None, Genesis(k, start))], {});
            Clean(k, d, c, [], [0]) && Recoverable(k, d, [], [0]) && Guarded(k, c, [], 0, true)
  {
    var c := FirstCursor(k, start, epoch);
    var d := Disk(Some(c), map[0 := ""], map[0 := Checkpoint(epoch, start, None, Genesis(k, start))], {});
    assert Holds(k, d, c, [], [0], 0);
    assert Content(k, d, c, [], [0]);
  }

  /** The first checkpoint, the first empty segment, then the first cursor. */
  method WriteFirstFiles(k: Codec, vol: Volume, c: Cursor, ghost allowed: bool) returns (ok: bool)
    requires vol.Valid() && vol.disk == Disk(None, map[], map[], {})
    requires 0 <= c.start && c.start % MINUTE == 0 && c == FirstCursor(k, c.start, c.epoch)
    requires allowed ==> vol.mark == Mark(0, [], 0) && SafeHistory(k, vol.history, [], true)
    modifies vol
    ensures vol.Valid() && old(vol.faults) <= vol.faults
    ensures allowed ==> SafeHistory(k, vol.history, [], true)
    ensures vol.faults == old(vol.faults) ==> ok
    ensures ok ==> vol.mark == Mark(0, [0], 0) && Clean(k, vol.disk, c, [], [0])
  {
    hide SafeHistory, Clean, Recoverable, Guarded;
    ghost var before := vol.history;
    FirstClean(k, c.start, c.epoch);
    var checkpoint := Checkpoint(c.epoch, c.start, None, c.v);
    ok := vol.ReplaceCheckpoint(0, checkpoint);
    if allowed {
      UnstartedSteps(k, before, vol.history);
    }
    if !ok {
      return;
    }
    before := vol.history;
    ok := vol.CreateSegment(0);
    if allowed {
      UnstartedSteps(k, before, vol.history);
    }
    if !ok {
      return;
    }
    before := vol.history;
    ghost var disk := vol.disk;
    ok := vol.ReplaceCursor(c, Mark(0, [0], 0));
    assert disk.(cursor := Some(c)) == Disk(Some(c), map[0 := ""], map[0 := checkpoint], {});
    if allowed {
      HistoryOnce(k, before, vol.history, Snapshot(disk.(cursor := Some(c)), Mark(0, [0], 0)), [], [], true);
    }
  }
}
