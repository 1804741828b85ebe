/** What a client's reader sees of a running producer: every recorded disk is a sound journal, and each a later one. */
module ProducerViews {
  import opened Feed
  import opened JournalFormat
  import opened Volumes
  import opened JournalSteps
  import opened Journal
  import opened Reader

  /** The segments begun, with the empty successor the cursor does not name yet. */
  function BegunBy(s: Snapshot): seq<nat>
    requires s.disk.cursor.Some?
  {
    var c := s.disk.cursor.value;
    if c.segment < c.v.index && c.v.index in s.disk.segments then s.mark.begun + [c.v.index] else s.mark.begun
  }

  ghost function Position(begun: seq<nat>, base: nat): (i: nat)
    requires base in begun
    ensures i < |begun| && begun[i] == base
  {
    var i :| 0 <= i < |begun| && begun[i] == base;
    i
  }

  /** The bytes of a segment: those on disk, or, once it expired, the lines it was sealed with. */
  ghost function ContentOf(d: Disk, log: seq<string>, begun: seq<nat>, base: nat): string
    requires base in begun
  {
    if base in d.segments then d.segments[base]
    else
      var i := Position(begun, base);
      if i + 1 < |begun| && base <= begun[i + 1] <= |log| then Bytes(log[base..begun[i + 1]]) else ""
  }

  /** The journal of one recorded disk, as its readers see it. */
  ghost function View(s: Snapshot, all: seq<string>): Files
    requires s.disk.cursor.Some? && s.disk.cursor.value.v.index <= |all|
  {
    var log, begun := all[..s.disk.cursor.value.v.index], BegunBy(s);
    Files(log, begun, map base | base in begun :: ContentOf(s.disk, log, begun, base), s.disk.segments.Keys)
  }

  /** The files of a recoverable disk, without its checkpoints. */
  ghost predicate Filed(s: Snapshot, log: seq<string>) {
    && s.disk.cursor.Some? && s.mark.Valid()
    && var c, begun, segments := s.disk.cursor.value, s.mark.begun, s.disk.segments;
    && c.v.index == |log| && begun[|begun| - 1] == c.segment <= |log| && ValidLines(log)
    && (forall i :: 0 <= i < s.mark.expired ==> begun[i] !in segments)
    && (forall i :: s.mark.expired <= i < |begun| ==> begun[i] in segments)
    && (forall i, j :: s.mark.expired <= i && j == i + 1 && j < |begun| ==>
                         begun[j] <= |log| && segments[begun[i]] == Bytes(log[begun[i]..begun[j]]))
    && Bytes(log[c.segment..]) <= segments[c.segment]
    && (forall base :: base in segments ==> base in begun || (c.segment < base == |log| && segments[base] == ""))
    && (c.segment < |log| && |log| in segments ==> segments[c.segment] == Bytes(log[c.segment..]))
  }

  lemma FiledSegment(k: Codec, s: Snapshot, c: Cursor, log: seq<string>, i: nat)
    requires s.mark.Valid() && Content(k, s.disk, c, log, s.mark.Bases()) && s.mark.expired <= i < |s.mark.begun|
    ensures var begun := s.mark.begun;
            && begun[i] in s.disk.segments && begun[i] <= End(begun, i, |log|) <= |log|
            && Bytes(log[begun[i]..End(begun, i, |log|)]) <= s.disk.segments[begun[i]]
            && (i + 1 < |begun| ==> s.disk.segments[begun[i]] == Bytes(log[begun[i]..begun[i + 1]]))
  {
    hide Bytes, StateAt, Replay, ValidLines;
    var bases := s.mark.Bases();
    assert bases[i - s.mark.expired] == s.mark.begun[i];
    assert i + 1 < |s.mark.begun| ==> bases[i + 1 - s.mark.expired] == s.mark.begun[i + 1];
    assert Holds(k, s.disk, c, log, bases, i - s.mark.expired);
  }

  lemma FiledPlaces(k: Codec, s: Snapshot, log: seq<string>)
    requires s.mark.Valid() && Recoverable(k, s.disk, log, s.mark.Bases())
    ensures s.disk.cursor.Some? && Content(k, s.disk, s.disk.cursor.value, log, s.mark.Bases()) && ValidLines(log)
    ensures s.mark.begun[|s.mark.begun| - 1] == s.disk.cursor.value.segment <= |log| == s.disk.cursor.value.v.index
    ensures forall i :: 0 <= i < s.mark.expired ==> s.mark.begun[i] !in s.disk.segments
    ensures forall base :: base in s.disk.segments ==>
              base in s.mark.begun || (s.disk.cursor.value.segment < base == |log| && s.disk.segments[base] == "")
  {
    hide Bytes, StateAt, Holds, ValidLines;
    var c, begun, bases := s.disk.cursor.value, s.mark.begun, s.mark.Bases();
    ReplayCounts(k, c.predecessor, Genesis(k, c.start), log);
    assert bases[|bases| - 1] == begun[|begun| - 1];
    assert forall i :: 0 <= i < |bases| ==> bases[i] == begun[s.mark.expired + i];
    forall i | 0 <= i < s.mark.expired
      ensures begun[i] !in s.disk.segments
    {
      assert begun[i] < begun[|begun| - 1];
      assert forall j :: 0 <= j < |bases| ==> begun[i] < bases[j];
    }
  }

  lemma OpenFiled(d: Disk, c: Cursor, all: seq<string>)
    requires Visible(d, all) && d.cursor == Some(c)
    ensures c.segment <= c.v.index <= |all|
    ensures var log := all[..c.v.index];
            && log[c.segment..] == log[c.segment..|log|]
            && (c.segment < |log| && |log| in d.segments ==>
                  c.segment in d.segments && d.segments[c.segment] == Bytes(log[c.segment..]))
  {
    hide Bytes;
    assert all[..c.v.index][c.segment..] == all[c.segment..c.v.index];
  }

  lemma SafeIsFiled(k: Codec, s: Snapshot, all: seq<string>, closing: bool)
    requires Safe(k, s, all, closing) && s.disk.cursor.Some? && Visible(s.disk, all)
    ensures s.disk.cursor.value.v.index <= |all| && Filed(s, all[..s.disk.cursor.value.v.index])
  {
    hide Bytes, Guarded, Content, Recoverable, Visible, ValidLines;
    var c, begun := s.disk.cursor.value, s.mark.begun;
    OpenFiled(s.disk, c, all);
    var log := all[..c.v.index];
    FiledPlaces(k, s, log);
    forall i | s.mark.expired <= i < |begun|
      ensures begun[i] in s.disk.segments
    {
      FiledSegment(k, s, c, log, i);
    }
    forall i, j | s.mark.expired <= i && j == i + 1 && j < |begun|
      ensures begun[j] <= |log| && s.disk.segments[begun[i]] == Bytes(log[begun[i]..begun[j]])
    {
      FiledSegment(k, s, c, log, i);
    }
    FiledSegment(k, s, c, log, |begun| - 1);
  }

  lemma FiledSteps(s: Snapshot, log: seq<string>, i: nat)
    requires Filed(s, log) && i < |BegunBy(s)|
    ensures var begun := BegunBy(s);
            && begun[0] == 0 && begun[i] <= |log| && (i + 1 < |begun| ==> begun[i] < begun[i + 1] <= |log|)
            && (i < |s.mark.begun| ==> begun[i] == s.mark.begun[i])
  {
    hide Bytes;
  }

  /** The bytes of each segment, retained or expired. */
  lemma FiledContent(s: Snapshot, log: seq<string>, i: nat)
    requires Filed(s, log) && i < |BegunBy(s)|
    ensures var begun := BegunBy(s);
            var content := ContentOf(s.disk, log, begun, begun[i]);
            && begun[i] <= End(begun, i, |log|) <= |log|
            && Bytes(log[begun[i]..End(begun, i, |log|)]) <= content
            && (i + 1 < |begun| ==> content == Bytes(log[begun[i]..begun[i + 1]]))
  {
    hide Bytes;
    var begun, c := BegunBy(s), s.disk.cursor.value;
    FiledSteps(s, log, i);
    AscendingBegun(s, log);
    assert Position(begun, begun[i]) == i;
    if i < s.mark.expired {
      assert begun[i] !in s.disk.segments;
    } else if i + 1 < |s.mark.begun| {
      assert begun[i + 1] == s.mark.begun[i + 1];
    } else if i < |s.mark.begun| {
      assert begun[i] == c.segment;
      assert log[c.segment..] == log[c.segment..|log|];
    } else {
      assert log[|log|..|log|] == [];
      NoBytes();
    }
  }

  lemma AscendingBegun(s: Snapshot, log: seq<string>)
    requires Filed(s, log)
    ensures forall i, j :: 0 <= i < j < |BegunBy(s)| ==> BegunBy(s)[i] < BegunBy(s)[j]
  {
    hide Bytes;
    var mark := s.mark;
    assert forall i :: 0 <= i < |mark.begun| ==> mark.begun[i] <= mark.begun[|mark.begun| - 1];
  }

  /** At rest, in the middle of an append, a seal or an expiry: the files are a journal readers may rely on, and they
      hold every released line. */
  lemma ViewIsSound(k: Codec, s: Snapshot, all: seq<string>, closing: bool)
    requires Safe(k, s, all, closing) && s.disk.cursor.Some? && Visible(s.disk, all)
    ensures s.disk.cursor.value.v.index <= |all| && Sound(View(s, all))
    ensures s.mark.released <= |View(s, all).log|
  {
    hide Recoverable, Bytes, Filed, BegunBy, ContentOf, HoldsLines, Guarded;
    SafeIsFiled(k, s, all, closing);
    var log := all[..s.disk.cursor.value.v.index];
    FiledPresent(s, log);
    forall i | 0 <= i < |BegunBy(s)|
      ensures HoldsLines(View(s, all), i)
    {
      FiledSteps(s, log, i);
      FiledContent(s, log, i);
      ViewHolds(s, all, i);
    }
    FiledSteps(s, log, 0);
  }

  lemma FiledPresent(s: Snapshot, log: seq<string>)
    requires Filed(s, log)
    ensures BegunBy(s) != [] && ValidLines(log) && forall base :: base in s.disk.segments ==> base in BegunBy(s)
  {
    hide Bytes;
  }

  lemma ViewHolds(s: Snapshot, all: seq<string>, i: nat)
    requires s.disk.cursor.Some? && s.disk.cursor.value.v.index <= |all| && i < |BegunBy(s)|
    requires var log, begun := all[..s.disk.cursor.value.v.index], BegunBy(s);
             var content := ContentOf(s.disk, log, begun, begun[i]);
             && begun[i] <= End(begun, i, |log|) <= |log|
             && Bytes(log[begun[i]..End(begun, i, |log|)]) <= content
             && (i + 1 < |begun| ==> begun[i] < begun[i + 1] && content == Bytes(log[begun[i]..begun[i + 1]]))
    ensures HoldsLines(View(s, all), i)
  {
    hide Bytes, BegunBy, ContentOf;
  }

  // ---------- One step later ----------

  lemma BegunLater(s: Snapshot, t: Snapshot, log: seq<string>, more: seq<string>)
    requires Filed(s, log) && Filed(t, more) && Observed(s, t) && log <= more && s.mark.expired <= t.mark.expired
    ensures BegunBy(s) <= BegunBy(t)
    ensures forall i :: |BegunBy(s)| <= i < |BegunBy(t)| ==> BegunBy(t)[i] >= |log|
  {
    hide Filed, BegunBy;
    FiledIndex(s, log);
    FiledIndex(t, more);
    if |BegunBy(s)| > |s.mark.begun| && t.mark.begun == s.mark.begun {
      SuccessorStays(s, t, log, more);
    }
  }

  lemma FiledIndex(s: Snapshot, log: seq<string>)
    requires Filed(s, log)
    ensures s.disk.cursor.Some? && s.disk.cursor.value.v.index == |log|
    ensures BegunBy(s) == s.mark.begun || BegunBy(s) == s.mark.begun + [|log|]
  {
    hide Bytes, ValidLines;
  }

  /** A successor not yet named stays until the cursor names it. */
  lemma SuccessorStays(s: Snapshot, t: Snapshot, log: seq<string>, more: seq<string>)
    requires Filed(s, log) && Filed(t, more) && Observed(s, t)
    requires |BegunBy(s)| > |s.mark.begun| && t.mark.begun == s.mark.begun
    ensures BegunBy(t) == BegunBy(s)
  {
    hide Bytes, ValidLines;
    var size := |log|;
    assert size in s.disk.segments && size in t.disk.segments;
    AboveAll(s.mark, size);
    assert size == |more|;
  }

  lemma AboveAll(mark: Mark, size: nat)
    requires mark.Valid() && mark.begun[|mark.begun| - 1] < size
    ensures size !in mark.begun
  {
    assert forall i :: 0 <= i < |mark.begun| - 1 ==> mark.begun[i] < mark.begun[|mark.begun| - 1];
  }

  /** A listed segment was there, or is only just begun. */
  lemma NotBack(s: Snapshot, t: Snapshot, log: seq<string>, more: seq<string>, i: nat)
    requires Filed(s, log) && Filed(t, more) && Observed(s, t) && log <= more
    requires i < |BegunBy(s)| && BegunBy(s)[i] in t.disk.segments
    ensures BegunBy(s)[i] in s.disk.segments
  {
    hide Bytes;
    AscendingBegun(s, log);
    var c := s.disk.cursor.value;
  }

  lemma ContentLater(s: Snapshot, t: Snapshot, log: seq<string>, more: seq<string>, i: nat)
    requires Filed(s, log) && Filed(t, more) && Observed(s, t) && log <= more && s.mark.expired <= t.mark.expired
    requires i < |BegunBy(s)| && BegunBy(s) <= BegunBy(t)
    ensures BegunBy(t)[i] == BegunBy(s)[i]
    ensures ContentOf(s.disk, log, BegunBy(s), BegunBy(s)[i]) <= ContentOf(t.disk, more, BegunBy(t), BegunBy(t)[i])
  {
    hide Bytes, BegunBy, Filed;
    var begun, later := BegunBy(s), BegunBy(t);
    assert later[i] == begun[i];
    if begun[i] in t.disk.segments {
      NotBack(s, t, log, more, i);
    } else {
      GoneIsSealed(s, t, log, i);
      FiledContent(s, log, i);
      FiledContent(t, more, i);
      assert later[i + 1] == begun[i + 1];
      SameSlice(log, more, begun[i], begun[i + 1]);
    }
  }

  lemma GoneIsSealed(s: Snapshot, t: Snapshot, log: seq<string>, i: nat)
    requires Filed(s, log) && Observed(s, t) && i < |BegunBy(s)| && BegunBy(s)[i] !in t.disk.segments
    ensures i + 1 < |BegunBy(s)|
  {
    hide Bytes;
    AscendingBegun(s, log);
  }

  /** Each durable step of a run leads to a later journal. */
  lemma StepIsLater(k: Codec, s: Snapshot, t: Snapshot, all: seq<string>, closing: bool)
    requires Safe(k, s, all, closing) && Safe(k, t, all, closing) && Forward(s, t) && Observed(s, t)
    requires Visible(s.disk, all) && Visible(t.disk, all)
    ensures Later(View(s, all), View(t, all))
  {
    hide Safe, Filed, BegunBy, ContentOf, Observed;
    SafeIsFiled(k, s, all, closing);
    SafeIsFiled(k, t, all, closing);
    var log, more := all[..s.disk.cursor.value.v.index], all[..t.disk.cursor.value.v.index];
    assert log <= more;
    BegunLater(s, t, log, more);
    forall base | base in BegunBy(s)
      ensures base in BegunBy(t) && ContentOf(s.disk, log, BegunBy(s), base) <= ContentOf(t.disk, more, BegunBy(t),
              base)
      ensures base in t.disk.segments ==> base in s.disk.segments
    {
      var i :| 0 <= i < |BegunBy(s)| && BegunBy(s)[i] == base;
      assert BegunBy(t)[i] == base;
      ContentLater(s, t, log, more, i);
      if base in t.disk.segments {
        NotBack(s, t, log, more, i);
      }
    }
  }

  lemma LaterTrans(f: Files, g: Files, h: Files)
    requires Sound(g) && Later(f, g) && Later(g, h)
    ensures Later(f, h)
  {
    hide HoldsLines;
    forall i | |f.bases| <= i < |h.bases|
      ensures h.bases[i] >= |f.log|
    {
      assert i < |g.bases| ==> h.bases[i] == g.bases[i];
    }
    forall base | base in f.bases && base in f.contents && base in h.contents
      ensures f.contents[base] <= h.contents[base]
    {
      SoundContents(g, f, base);
    }
    forall base | base in f.bases
      ensures base in g.bases
    {
      SoundContents(g, f, base);
    }
  }

  lemma SoundContents(g: Files, f: Files, base: nat)
    requires Sound(g) && f.bases <= g.bases && base in f.bases
    ensures base in g.bases && base in g.contents
  {
    hide Bytes;
    var i :| 0 <= i < |f.bases| && f.bases[i] == base;
    assert g.bases[i] == base && HoldsLines(g, i);
  }

  /** From one moment of a run to any other. */
  lemma {:induction false} RunIsLater(k: Codec, history: seq<Snapshot>, from: nat, all: seq<string>, closing: bool,
                                      i: nat, j: nat)
    requires SafeHistory(k, history, all, closing) && Running(history, from, all) && from <= i <= j < |history|
    ensures Safe(k, history[i], all, closing) && Safe(k, history[j], all, closing)
    ensures history[i].disk.cursor.Some? && history[j].disk.cursor.Some?
    ensures Later(View(history[i], all), View(history[j], all))
    decreases j - i
  {
    hide Safe, View, Later, Sound, Observed, Visible;
    Moment(k, history, from, all, closing, i);
    Moment(k, history, from, all, closing, j);
    if i == j {
      LaterSelf(View(history[i], all));
    } else {
      RunIsLater(k, history, from, all, closing, i, j - 1);
      Moment(k, history, from, all, closing, j - 1);
      assert Forward(history[j - 1], history[j]) && Observed(history[j - 1], history[j]);
      StepIsLater(k, history[j - 1], history[j], all, closing);
      LaterTrans(View(history[i], all), View(history[j - 1], all), View(history[j], all));
    }
  }

  lemma LaterSelf(f: Files)
    ensures Later(f, f)
  {
  }

  lemma Moment(k: Codec, history: seq<Snapshot>, from: nat, all: seq<string>, closing: bool, i: nat)
    requires SafeHistory(k, history, all, closing) && Running(history, from, all) && from <= i < |history|
    ensures Safe(k, history[i], all, closing) && Visible(history[i].disk, all) && history[i].disk.cursor.Some?
    ensures history[i].disk.cursor.value.v.index <= |all| && Sound(View(history[i], all))
    ensures history[i].mark.released <= |View(history[i], all).log|
  {
    hide Safe, View, Sound;
    assert Safe(k, history[i], all, closing) && Visible(history[i].disk, all);
    ViewIsSound(k, history[i], all, closing);
  }

  /** The journal as it was at one moment of the history. */
  ghost function Shown(history: seq<Snapshot>, all: seq<string>, i: nat): Files {
    if i < |history| && history[i].disk.cursor.Some? && history[i].disk.cursor.value.v.index <= |all|
    then View(history[i], all) else Files([], [0], map[0 := ""], {})
  }

  lemma ShownIsLater(k: Codec, history: seq<Snapshot>, from: nat, all: seq<string>, closing: bool, i: nat, j: nat)
    requires SafeHistory(k, history, all, closing) && Running(history, from, all) && from <= i <= j < |history|
    ensures Sound(Shown(history, all, i)) && Later(Shown(history, all, i), Shown(history, all, j))
    ensures history[i].mark.released <= |Shown(history, all, i).log|
  {
    hide SafeHistory, Running, View, Sound, Later;
    Moment(k, history, from, all, closing, i);
    Moment(k, history, from, all, closing, j);
    RunIsLater(k, history, from, all, closing, i, j);
  }

  /**
   * A process's whole recorded run is a world its readers may rely on: whenever their system calls fall, each sees a
   * sound journal with every line released by then, and a later one than the call before.
   */
  lemma RunIsProducing(k: Codec, history: seq<Snapshot>, from: nat, all: seq<string>, closing: bool, at: nat -> nat)
    requires SafeHistory(k, history, all, closing) && Running(history, from, all)
    requires forall t: nat :: from <= at(t) < |history|
    requires forall s: nat, t: nat :: s <= t ==> at(s) <= at(t)
    ensures Producing((t: nat) => Shown(history, all, at(t)))
    ensures forall t: nat :: history[at(t)].mark.released <= |Shown(history, all, at(t)).log|
  {
    hide SafeHistory, Running, Sound, Later, Shown, Safe, Visible, Observed, Recoverable;
    forall s: nat, t: nat | s <= t
      ensures Sound(Shown(history, all, at(s))) && Later(Shown(history, all, at(s)), Shown(history, all, at(t)))
      ensures history[at(s)].mark.released <= |Shown(history, all, at(s)).log|
    {
      ShownIsLater(k, history, from, all, closing, at(s), at(t));
    }
    assert forall t: nat :: t <= t ==> Sound(Shown(history, all, at(t)));
  }

  /** So is the run of any journal, up to whatever call it has reached. */
  lemma StateProduces(state: State, at: nat -> nat)
    requires state.Sound()
    requires forall t: nat :: state.from <= at(t) < |state.vol.history|
    requires forall s: nat, t: nat :: s <= t ==> at(s) <= at(t)
    ensures var history, all := state.vol.history, state.log + state.staged;
            Producing((t: nat) => Shown(history, all, at(t)))
  {
    hide SafeHistory, Running, Producing, Shown;
    RunIsProducing(state.k, state.vol.history, state.from, state.log + state.staged, state.closing, at);
  }
}
