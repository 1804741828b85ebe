/** The state directory. Every durable effect is one step, and a crash may fall between any two steps. */
module Volumes {
  import opened Feed
  import opened JournalFormat

  /** What the producer told its caller, every segment it ever began, and how many of the oldest it has given up. */
  datatype Mark = Mark(released: nat, begun: seq<nat>, expired: nat) {
    ghost predicate Valid() {
      && expired < |begun| && begun[0] == 0
      && forall i, j :: 0 <= i < j < |begun| ==> begun[i] < begun[j]
    }

    /** The retained segments, oldest first. */
    function Bases(): seq<nat> {
      if expired <= |begun| then begun[expired..] else []
    }

    /** The first line that retention has not given up. */
    function First(): nat {
      if expired < |begun| then begun[expired] else 0
    }

    /** Nothing is untold, no segment is forgotten and no expiry is taken back. */
    predicate UpTo(later: Mark) {
      released <= later.released && begun <= later.begun && expired <= later.expired
    }
  }

  /** One disk a crash may leave, with the marks of the producer at that moment. */
  datatype Snapshot = Snapshot(disk: Disk, mark: Mark)

  class Volume {
    var disk: Disk
    ghost var mark: Mark
    ghost var faults: nat
    ghost var history: seq<Snapshot>

    ghost predicate Valid()
      reads this
    {
      history != [] && history[|history| - 1] == Snapshot(disk, mark)
    }

    /** The history only grew, by snapshots of the disks in `disks` with the marks `to`. */
    twostate predicate Grew(disks: iset<Disk>, to: Mark)
      reads this
    {
      && old(faults) <= faults && (mark == to || mark == old(mark))
      && old(history) <= history
      && forall i :: |old(history)| <= i < |history| ==> history[i].mark == to && history[i].disk in disks
    }

    /** An effect that may fail: not done, or done without a confirmed sync. */
    method Become(next: Disk, ghost to: Mark) returns (ok: bool)
      requires Valid()
      modifies this
      ensures Valid() && Grew(iset{next}, to)
      ensures ok ==> disk == next && mark == to && faults == old(faults)
      ensures !ok ==> faults > old(faults)
      ensures (disk == next && mark == to) || (disk == old(disk) && mark == old(mark))
      ensures history == old(history) || history == old(history) + [Snapshot(next, to)]
    {
      if * {
        faults := faults + 1;
        return false;
      }
      disk, mark := next, to;
      history := history + [Snapshot(next, to)];
      ok := true;
      if * {
        faults := faults + 1;
        ok := false;
      }
    }

    /** The caller is told of the first `lines` lines. */
    ghost method Release(lines: nat)
      requires Valid()
      modifies this`mark, this`history
      ensures Valid() && mark == old(mark).(released := lines)
      ensures history == old(history) + [Snapshot(disk, mark)]
    {
      mark := mark.(released := lines);
      history := history + [Snapshot(disk, mark)];
    }

    /** Atomic replacement of the cursor file; its temporary lies outside the journal directory. */
    method ReplaceCursor(c: Cursor, ghost to: Mark) returns (ok: bool)
      requires Valid()
      modifies this
      ensures Valid() && Grew(iset{old(disk).(cursor := Some(c))}, to)
      ensures ok ==> disk == old(disk).(cursor := Some(c)) && mark == to && faults == old(faults)
      ensures !ok ==> faults > old(faults)
      ensures (disk == old(disk).(cursor := Some(c)) && mark == to) || (disk == old(disk) && mark == old(mark))
    {
      ok := Become(disk.(cursor := Some(c)), to);
    }

    /** Atomic replacement of a checkpoint: a temporary first, then the rename. */
    method ReplaceCheckpoint(base: nat, checkpoint: Checkpoint) returns (ok: bool)
      requires Valid()
      modifies this
      ensures Valid() && mark == old(mark)
      ensures Grew(iset{Written(old(disk), base), Renamed(old(disk), base, checkpoint)}, old(mark))
      ensures ok ==> disk == Renamed(old(disk), base, checkpoint) && faults == old(faults)
      ensures !ok ==> faults > old(faults)
    {
      var before := disk;
      ok := Become(Written(before, base), mark);
      if ok {
        ok := Become(Renamed(before, base, checkpoint), mark);
      }
    }

    /** Exclusive creation of an empty segment. */
    method CreateSegment(base: nat) returns (ok: bool)
      requires Valid()
      modifies this
      ensures Valid() && mark == old(mark)
      ensures Grew(iset{old(disk).(segments := old(disk).segments[base := ""])}, old(mark))
      ensures ok ==> base !in old(disk).segments && faults == old(faults)
      ensures ok ==> disk == old(disk).(segments := old(disk).segments[base := ""])
      ensures !ok ==> faults > old(faults) || (base in old(disk).segments && disk == old(disk))
    {
      if base in disk.segments {
        return false;
      }
      ok := Become(disk.(segments := disk.segments[base := ""]), mark);
    }

    /** Appends in pieces of any size: a crash may leave any prefix of the bytes, each later one a longer prefix. */
    method Append(base: nat, bytes: string) returns (ok: bool)
      requires Valid() && base in disk.segments
      modifies this
      ensures Valid() && mark == old(mark)
      ensures Grew(iset n | 0 <= n <= |bytes| :: Appended(old(disk), base, bytes[..n]), old(mark))
      ensures Ascends(history, |old(history)| - 1, base)
      ensures ok ==> disk == Appended(old(disk), base, bytes) && faults == old(faults)
      ensures !ok ==> faults > old(faults)
    {
      hide Ascends;
      var offset := 0;
      AscendsFirst(history, base);
      AppendedNothing(disk, base);
      assert bytes[..0] == "";
      while offset < |bytes|
        invariant 0 <= offset <= |bytes|
        invariant Valid() && faults == old(faults) && mark == old(mark)
        invariant disk == Appended(old(disk), base, bytes[..offset])
        invariant Grew(iset n | 0 <= n <= |bytes| :: Appended(old(disk), base, bytes[..n]), old(mark))
        invariant Ascends(history, |old(history)| - 1, base)
      {
        var written :| offset < written <= |bytes|;
        assert bytes[..offset] + bytes[offset..written] == bytes[..written];
        AppendedTwice(old(disk), base, bytes[..offset], bytes[offset..written]);
        ghost var before := history;
        ok := Become(Appended(disk, base, bytes[offset..written]), mark);
        AscendsOn(before, history, |old(history)| - 1, base,
                  Snapshot(Appended(old(disk), base, bytes[..written]), old(mark)));
        if !ok {
          return;
        }
        offset := written;
      }
      assert bytes[..offset] == bytes;
      ok := true;
    }

    /** Removal of a segment file; `to` are the marks once it is gone. */
    method RemoveSegment(base: nat, ghost to: Mark) returns (ok: bool)
      requires Valid()
      modifies this
      ensures Valid() && Grew(iset{old(disk).(segments := old(disk).segments - {base})}, to)
      ensures ok ==> disk == old(disk).(segments := old(disk).segments - {base}) && mark == to && faults == old(faults)
      ensures !ok ==> faults > old(faults)
    {
      ok := Become(disk.(segments := disk.segments - {base}), to);
    }

    method RemoveCheckpoint(base: nat) returns (ok: bool)
      requires Valid()
      modifies this
      ensures Valid() && mark == old(mark)
      ensures Grew(iset{old(disk).(checkpoints := old(disk).checkpoints - {base})}, old(mark))
      ensures ok ==> disk == old(disk).(checkpoints := old(disk).checkpoints - {base}) && faults == old(faults)
      ensures !ok ==> faults > old(faults)
    {
      ok := Become(disk.(checkpoints := disk.checkpoints - {base}), mark);
    }

    method RemoveTemporary(base: nat) returns (ok: bool)
      requires Valid()
      modifies this
      ensures Valid() && mark == old(mark)
      ensures Grew(iset{old(disk).(temporaries := old(disk).temporaries - {base})}, old(mark))
      ensures ok ==> disk == old(disk).(temporaries := old(disk).temporaries - {base}) && faults == old(faults)
      ensures !ok ==> faults > old(faults)
    {
      ok := Become(disk.(temporaries := disk.temporaries - {base}), mark);
    }

    method Truncate(base: nat, size: nat) returns (ok: bool)
      requires Valid() && base in disk.segments && size <= |disk.segments[base]|
      modifies this
      ensures Valid() && mark == old(mark) && Grew(iset{Truncated(old(disk), base, size)}, old(mark))
      ensures ok ==> disk == Truncated(old(disk), base, size) && faults == old(faults)
      ensures !ok ==> faults > old(faults)
    {
      ok := Become(Truncated(disk, base, size), mark);
    }
  }

  /** From `from` on, each snapshot of this segment is at least as long as those before it. */
  ghost predicate Ascends(history: seq<Snapshot>, from: nat, base: nat) {
    && (forall i :: from <= i < |history| ==> base in history[i].disk.segments)
    && forall i, j :: from <= i <= j < |history| ==>
                        |history[i].disk.segments[base]| <= |history[j].disk.segments[base]|
  }

  lemma AscendsFirst(history: seq<Snapshot>, base: nat)
    requires history != [] && base in history[|history| - 1].disk.segments
    ensures Ascends(history, |history| - 1, base)
  {
  }

  lemma AscendsOn(before: seq<Snapshot>, after: seq<Snapshot>, from: nat, base: nat, s: Snapshot)
    requires from < |before| && Ascends(before, from, base) && (after == before || after == before + [s])
    requires base in s.disk.segments
    requires |before[|before| - 1].disk.segments[base]| <= |s.disk.segments[base]|
    ensures Ascends(after, from, base)
  {
    forall i, j | from <= i <= j < |after|
      ensures base in after[i].disk.segments && base in after[j].disk.segments
      ensures |after[i].disk.segments[base]| <= |after[j].disk.segments[base]|
    {
      if j == |before| {
        assert i < |before| ==> |before[i].disk.segments[base]| <= |before[|before| - 1].disk.segments[base]|;
      }
    }
  }

  function Written(d: Disk, base: nat): Disk {
    d.(temporaries := d.temporaries + {base})
  }

  function Renamed(d: Disk, base: nat, checkpoint: Checkpoint): Disk {
    d.(temporaries := d.temporaries - {base}, checkpoints := d.checkpoints[base := checkpoint])
  }

  function Appended(d: Disk, base: nat, bytes: string): Disk
    requires base in d.segments
  {
    d.(segments := d.segments[base := d.segments[base] + bytes])
  }

  lemma AppendedNothing(d: Disk, base: nat)
    requires base in d.segments
    ensures Appended(d, base, "") == d
  {
    assert d.segments[base] + "" == d.segments[base];
    assert d.segments[base := d.segments[base]] == d.segments;
  }

  lemma AppendedTwice(d: Disk, base: nat, a: string, b: string)
    requires base in d.segments
    ensures Appended(Appended(d, base, a), base, b) == Appended(d, base, a + b)
  {
    assert d.segments[base] + a + b == d.segments[base] + (a + b);
  }

  function Truncated(d: Disk, base: nat, size: nat): Disk
    requires base in d.segments && size <= |d.segments[base]|
  {
    d.(segments := d.segments[base := d.segments[base][..size]])
  }
}
