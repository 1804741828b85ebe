/** What a journal of raw ticks proves about its minutes, whatever the venue answers. */
module KlineRange {
  import opened Feed
  import opened JournalFormat
  import opened Tape
  import opened Aggregates
  import opened Ledgers

  /** A kline that closed a minute, and whether its own ID range proved it. */
  datatype Closure = Closure(kline: Kline, ids: bool)

  function Prints(l: Ledger): seq<Trade> { PrintsIn(l.log) }

  /** The prints are one run that ends at the verified position, none of them beyond the open minute. */
  ghost predicate Journaled(l: Ledger) {
    var prints := Prints(l);
    && l.mode.TickMode() && Run(prints)
    && (prints == [] ==> l.v.lastId == 0)
    && (prints != [] ==> l.v.lastId == prints[|prints| - 1].id
                         && l.v.lastTickTs == prints[|prints| - 1].ts < l.v.cut + MINUTE)
  }

  /** The aggregate is the open minute's. */
  ghost predicate Open(l: Ledger, a: Aggregate) { Summarizes(a, MinuteOf(Prints(l), l.v.cut)) }

  /** Every `time` line closed its minute with a kline that is exactly the minute's journal prints. */
  ghost predicate Proven(l: Ledger, closes: map<int, Closure>) {
    && (forall k :: 0 <= k < |l.log| && l.log[k].TimeCut? ==> l.log[k].cut - MINUTE in closes)
    && (forall minute :: minute in closes ==>
                           minute + MINUTE <= l.v.cut && Proves(closes[minute].kline, closes[minute].ids,
                                                                MinuteOf(Prints(l), minute)))
  }

  lemma PrintsMore(log: seq<Message>, m: Message)
    ensures PrintsIn(log + [m]) == if m.Tick? then PrintsIn(log) + [m.trade] else PrintsIn(log)
  {
    assert (log + [m])[..|log|] == log;
  }

  lemma MinuteMore(prints: seq<Trade>, t: Trade, minute: int)
    ensures MinuteOf(prints + [t], minute) == if minute <= t.ts < minute + MINUTE then MinuteOf(prints, minute) + [t]
                                              else MinuteOf(prints, minute)
  {
    assert (prints + [t])[..|prints|] == prints;
  }

  lemma MinuteIsARun(prints: seq<Trade>, minute: int)
    requires Run(prints)
    ensures Run(MinuteOf(prints, minute))
  {
    var i, j := BetweenIsSlice(prints, minute, minute + MINUTE);
  }

  lemma NoneInMinute(prints: seq<Trade>, minute: int)
    requires Run(prints) && (prints != [] ==> prints[|prints| - 1].ts < minute)
    ensures MinuteOf(prints, minute) == []
  {
    BetweenIsRun(prints, minute, minute + MINUTE, |prints|, |prints|);
  }

  /** A staged tick joins the open minute and changes no other. */
  lemma TickJoins(l: Ledger, a: Aggregate, closes: map<int, Closure>, t: Trade)
    requires Journaled(l) && Open(l, a) && Proven(l, closes) && Staged(l, Tick(t), None).Ok?
    ensures Add(a, t).Ok?
    ensures var l2 := Staged(l, Tick(t), None).value;
            Journaled(l2) && Open(l2, Add(a, t).value) && Proven(l2, closes)
  {
    hide Summarizes, Between, Proves, PrintsIn, Run, Add;
    PrintsMore(l.log, Tick(t));
    MinuteMore(Prints(l), t, l.v.cut);
    RunMore(l, t);
    MinuteIsARun(Prints(l) + [t], l.v.cut);
    AddRun(a, MinuteOf(Prints(l), l.v.cut), t);
    AddSummarizes(a, MinuteOf(Prints(l), l.v.cut), t);
    forall minute | minute in closes
      ensures MinuteOf(Prints(l) + [t], minute) == MinuteOf(Prints(l), minute)
    {
      MinuteMore(Prints(l), t, minute);
    }
  }

  lemma RunMore(l: Ledger, t: Trade)
    requires Journaled(l) && Staged(l, Tick(t), None).Ok?
    ensures Run(Prints(l) + [t])
  {
  }

  /** A staged `time` line closes the minute with its proof and opens an empty one. */
  lemma CutCloses(l: Ledger, a: Aggregate, closes: map<int, Closure>, kline: Kline, ids: bool)
    requires Journaled(l) && Open(l, a) && Proven(l, closes) && Reconcile(a, kline, ids).Ok?
    requires Staged(l, TimeCut(l.v.cut + MINUTE), Some(kline.bar)).Ok?
    ensures var l2 := Staged(l, TimeCut(l.v.cut + MINUTE), Some(kline.bar)).value;
            Journaled(l2) && Open(l2, EMPTY) && Proven(l2, closes[l.v.cut := Closure(kline, ids)])
  {
    hide Summarizes, Between, Proves, PrintsIn, Run, Reconcile;
    PrintsMore(l.log, TimeCut(l.v.cut + MINUTE));
    MinuteIsARun(Prints(l), l.v.cut);
    ReconcileProves(a, MinuteOf(Prints(l), l.v.cut), kline, ids);
    NoneInMinute(Prints(l), l.v.cut + MINUTE);
    NothingSummarized();
  }

  lemma NothingSummarized()
    ensures Summarizes(EMPTY, [])
  {
  }

  /** A journal that verifies holds one run of prints up to its verified position. */
  lemma {:induction false} FoldJournaled(l: Ledger)
    requires l.mode.TickMode() && Fold(l.start, l.predecessor, l.mode, l.log).Ok?
    requires SamePosition(Fold(l.start, l.predecessor, l.mode, l.log).value, l.v)
    ensures Journaled(l)
    decreases |l.log|
  {
    if l.log == [] {
      assert Prints(l) == [];
    } else {
      var n := |l.log| - 1;
      assert l.log == l.log[..n] + [l.log[n]];
      hide PrintsIn, Run, Advance;
      var v := Fold(l.start, l.predecessor, l.mode, l.log[..n]).value;
      var before := l.(log := l.log[..n], v := v);
      FoldJournaled(before);
      hide Fold;
      JournalStep(before, l, l.log[n]);
    }
  }

  lemma JournalStep(before: Ledger, l: Ledger, m: Message)
    requires Journaled(before) && l.log == before.log + [m] && l.mode == before.mode
             && l.predecessor == before.predecessor
    requires var next := Advance(before.v, before.predecessor, m, before.mode);
             next.Ok? && SamePosition(next.value, l.v)
    ensures Journaled(l)
  {
    PrintsMore(before.log, m);
    hide PrintsIn, Run;
    if m.Tick? {
      RunMore(before, m.trade);
    }
  }

  /** The prints at or after the cut are the open minute's, so a restarted session has the aggregate of one that never
      stopped. */
  lemma RestartAggregate(l: Ledger, a: Aggregate, b: Aggregate)
    requires Journaled(l) && Open(l, a) && Summarizes(b, Between(Prints(l), l.v.cut, MAX_I64 + 1))
    ensures a == b
  {
    SinceCut(l);
    SummaryIsUnique(a, b, MinuteOf(Prints(l), l.v.cut));
  }

  lemma SinceCut(l: Ledger)
    requires Journaled(l)
    ensures Between(Prints(l), l.v.cut, MAX_I64 + 1) == MinuteOf(Prints(l), l.v.cut)
    ensures Run(MinuteOf(Prints(l), l.v.cut))
  {
    var prints := Prints(l);
    MinuteIsARun(prints, l.v.cut);
    hide PrintsIn;
    SameRange(prints, l.v.cut, l.v.cut + MINUTE, MAX_I64 + 1);
  }

  lemma {:induction false} SameRange(prints: seq<Trade>, lo: int, hi: int, bound: int)
    requires forall i :: 0 <= i < |prints| ==> prints[i].ts < hi && prints[i].ts < bound
    ensures Between(prints, lo, hi) == Between(prints, lo, bound)
  {
    if prints != [] {
      SameRange(prints[..|prints| - 1], lo, hi, bound);
    }
  }
}
