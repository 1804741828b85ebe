/** What lets a session go on: a venue that answers truly and in full, room in the buffer, and a host that does not
    stop. */
module Cooperation {
  import opened Feed
  import opened Ordered
  import JournalFormat
  import opened Tape
  import opened Aggregates
  import opened Ledgers

  function SumBytes(bytesOf: Trade -> nat, prints: seq<Trade>): nat {
    if prints == [] then 0 else SumBytes(bytesOf, prints[..|prints| - 1]) + bytesOf(prints[|prints| - 1])
  }

  /** Each minute has one candle; up to the tape's last print it is valid and, where candles are print sums, the bar
      of the minute's prints. */
  ghost predicate TrueBars(venue: Venue, tape: seq<Trade>, first: nat, start: int, truth: int -> Bar)
    requires first < |tape|
  {
    forall minute :: start <= minute <= tape[|tape| - 1].ts && minute % MINUTE == 0 ==>
                       && truth(minute).Valid() && truth(minute).ts == minute
                       && (venue.candleIsPrintSum ==> IsBarOf(truth(minute), MinuteOf(tape[first..], minute)))
  }

  ghost predicate TrueRows(rows: seq<Kline>, truth: int -> Bar) {
    forall i :: 0 <= i < |rows| ==> rows[i].bar == truth(rows[i].bar.ts)
  }

  ghost predicate HasMinute(rows: seq<Kline>, minute: int) { exists i :: 0 <= i < |rows| && rows[i].bar.ts == minute }

  /** Every request is answered, with the print or candle it asks for when there is one. */
  ghost predicate Answers(venue: Venue, tape: seq<Trade>, first: nat, truth: int -> Bar)
    requires 0 < first <= |tape|
  {
    && (forall call, from :: venue.history(call, from).Ok?)
    && (forall call, from :: 0 <= from - tape[0].id < |tape| ==> venue.history(call, from).value != [])
    && (forall call :: venue.predecessor(call) == Ok(Some(tape[first - 1])))
    && forall call, lo, hi :: lo < hi ==>
                                && venue.klines(call, lo, hi).Ok?
                                && TrueRows(venue.klines(call, lo, hi).value, truth)
                                && HasMinute(venue.klines(call, lo, hi).value, lo)
  }

  ghost predicate Cooperates(venue: Venue, host: Host, limits: Limits, tape: seq<Trade>, first: nat, start: int,
                             truth: int -> Bar) {
    && (forall call :: !host.stops(call) && !host.publishFails(call))
    && Serves(venue, tape, first) && ValidTape(tape)
    && Answers(venue, tape, first, truth) && TrueBars(venue, tape, first, start, truth)
    && tape[|tape| - 1].id < MAX_U64
    && (venue.retentionMs == 0 || tape[|tape| - 1].ts - tape[0].ts <= venue.retentionMs)
    && SumBytes(limits.bytesOf, tape) <= limits.maxQueueBytes
  }

  /** What the session holds is true as well. */
  ghost predicate Truthful(l: Ledger, candles: map<int, Kline>, newest: int, tape: seq<Trade>, truth: int -> Bar) {
    && (l.predecessor == None ==> l.v.index == 0)
    && (l.v.lastId == 0 ==> l.v.lastTickTs < 0)
    && (forall i :: 0 <= i < |l.proofs| ==> l.proofs[i] == truth(l.proofs[i].ts))
    && (forall minute :: minute in candles ==> candles[minute].bar == truth(minute))
    && tape != [] && newest <= tape[|tape| - 1].ts
  }

  // ---------- One answer at a time ----------

  lemma HostGoesOn(venue: Venue, host: Host, limits: Limits, tape: seq<Trade>, first: nat, start: int,
                   truth: int -> Bar, call: nat)
    requires Cooperates(venue, host, limits, tape, first, start, truth)
    ensures !host.stops(call) && !host.publishFails(call)
  {
  }

  lemma TapeFacts(venue: Venue, host: Host, limits: Limits, tape: seq<Trade>, first: nat, start: int, truth: int -> Bar)
    requires Cooperates(venue, host, limits, tape, first, start, truth)
    ensures 0 < first < |tape| && ValidTape(tape) && tape[|tape| - 1].id < MAX_U64
    ensures venue.retentionMs == 0 || tape[|tape| - 1].ts - tape[0].ts <= venue.retentionMs
    ensures SumBytes(limits.bytesOf, tape) <= limits.maxQueueBytes
  {
  }

  lemma HistoryAnswers(venue: Venue, host: Host, limits: Limits, tape: seq<Trade>, first: nat, start: int,
                       truth: int -> Bar, call: nat, from: nat)
    requires Cooperates(venue, host, limits, tape, first, start, truth)
    ensures venue.history(call, from).Ok? && IsPage(tape, from, venue.history(call, from).value)
    ensures 0 <= from - tape[0].id < |tape| ==> venue.history(call, from).value != []
  {
  }

  lemma PredecessorAnswers(venue: Venue, host: Host, limits: Limits, tape: seq<Trade>, first: nat, start: int,
                           truth: int -> Bar, call: nat)
    requires Cooperates(venue, host, limits, tape, first, start, truth)
    ensures 0 < first <= |tape| && venue.predecessor(call) == Ok(Some(tape[first - 1])) && tape[first - 1].Valid()
  {
  }

  lemma KlinesAnswer(venue: Venue, host: Host, limits: Limits, tape: seq<Trade>, first: nat, start: int,
                     truth: int -> Bar, call: nat, lo: int, hi: int)
    requires Cooperates(venue, host, limits, tape, first, start, truth) && lo < hi
    ensures venue.klines(call, lo, hi).Ok?
    ensures TrueRows(venue.klines(call, lo, hi).value, truth) && HasMinute(venue.klines(call, lo, hi).value, lo)
  {
  }

  lemma TrueBar(venue: Venue, host: Host, limits: Limits, tape: seq<Trade>, first: nat, start: int, truth: int -> Bar,
                minute: int)
    requires Cooperates(venue, host, limits, tape, first, start, truth) && minute >= start && minute % MINUTE == 0
    requires tape != [] && minute <= tape[|tape| - 1].ts
    ensures truth(minute).Valid() && truth(minute).ts == minute && first <= |tape|
    ensures venue.candleIsPrintSum ==> IsBarOf(truth(minute), MinuteOf(tape[first..], minute))
  {
  }

  /** Reading on a truthful venue finds what is there, however often it is asked. */
  lemma {:induction false} ReadsAnswer(venue: Venue, host: Host, limits: Limits, tape: seq<Trade>, first: nat,
                                       start: int,
                                       truth: int -> Bar, call: nat, from: nat, tries: nat)
    requires Cooperates(venue, host, limits, tape, first, start, truth)
    ensures Reads(venue, call, from, tries).Ok?
    ensures tries > 0 && Shows(tape, from) ==> Reads(venue, call, from, tries).value != []
    decreases tries
  {
    if tries > 0 {
      HistoryAnswers(venue, host, limits, tape, first, start, truth, call + 1, from);
      hide Cooperates;
      ReadsAnswer(venue, host, limits, tape, first, start, truth, call + 1, from, tries - 1);
    }
  }

  lemma {:induction false} ReadsArePages(venue: Venue, tape: seq<Trade>, first: nat, call: nat, from: nat, tries: nat)
    requires Serves(venue, tape, first)
    ensures var page := Reads(venue, call, from, tries); page.Ok? ==> IsPage(tape, from, page.value)
    decreases tries
  {
    if tries == 0 {
      EmptyPage(tape, from);
    } else {
      hide IsPage;
      ReadsArePages(venue, tape, first, call + 1, from, tries - 1);
    }
  }

  lemma PageStarts(tape: seq<Trade>, from: nat, page: seq<Trade>)
    requires IsPage(tape, from, page)
    ensures page != [] ==> page[0].id == from
  {
  }

  lemma RowsAnswer(venue: Venue, host: Host, limits: Limits, tape: seq<Trade>, first: nat, start: int,
                   truth: int -> Bar, call: nat, lo: int, hi: int, requests: nat)
    requires Cooperates(venue, host, limits, tape, first, start, truth) && lo < hi && requests > 0
    ensures var rows := Rows(venue, call, lo, hi, requests);
            rows.Ok? && TrueRows(rows.value, truth) && HasMinute(rows.value, lo)
  {
    KlinesAnswer(venue, host, limits, tape, first, start, truth, call + 1, lo, hi);
  }

  // ---------- Room ----------

  lemma {:induction false} RoomForAll(bytesOf: Trade -> nat, tape: seq<Trade>, pending: map<nat, Trade>)
    requires ValidTape(tape) && forall id :: id in pending ==> pending[id].id == id && OnTapePrint(tape, pending[id])
    ensures TotalBytes(bytesOf, pending) <= SumBytes(bytesOf, tape)
    decreases |tape|
  {
    if tape == [] {
      assert pending == map[];
    } else {
      var front, last := tape[..|tape| - 1], tape[|tape| - 1];
      var rest := pending - {last.id};
      forall id | id in rest
        ensures OnTapePrint(front, rest[id])
      {
        var i := rest[id].id - tape[0].id;
        assert i < |tape| - 1 && front[i] == tape[i];
      }
      assert ValidTape(front);
      RoomForAll(bytesOf, front, rest);
      if last.id in pending {
        TotalBytesRemove(bytesOf, pending, last.id);
        assert pending[last.id] == last;
      } else {
        assert rest == pending;
      }
    }
  }

  /** A buffered copy of the whole tape would fit, so one more print of it does. */
  lemma RoomForOne(bytesOf: Trade -> nat, tape: seq<Trade>, pending: map<nat, Trade>, t: Trade)
    requires ValidTape(tape) && OnTapePrint(tape, t) && t.id !in pending
    requires forall id :: id in pending ==> pending[id].id == id && OnTapePrint(tape, pending[id])
    ensures TotalBytes(bytesOf, pending) + bytesOf(t) <= SumBytes(bytesOf, tape)
  {
    RoomForAll(bytesOf, tape, pending[t.id := t]);
    TotalBytesInsert(bytesOf, pending, t.id, t);
  }

  // ---------- The next message is accepted ----------

  /** The next print, still in the open minute, is accepted. */
  lemma TickAccepted(tape: seq<Trade>, first: nat, l: Ledger, t: Trade)
    requires OnTape(tape, first, l) && OnTapePrint(tape, t) && l.predecessor.Some? && Addressable(l)
             && t.id == NextId(l)
    requires t.ts < l.v.cut + MINUTE
    ensures Staged(l, Tick(t), None).Ok? && l.v.lastTickTs <= t.ts && l.v.cut <= t.ts
  {
    HeadOfTape(tape, first, l, t);
    RestAfterCut(tape, l.start, first, |l.log|);
    hide Canonical, Reach;
    var end := End(tape, first, l);
    InTimeOrder(tape, end.next);
  }

  lemma InTimeOrder(tape: seq<Trade>, i: nat)
    requires ValidTape(tape) && 0 < i < |tape|
    ensures tape[i - 1].ts <= tape[i].ts && tape[i].Valid() && tape[i - 1].Valid()
  {
  }

  /** Behind the fence, the `time` line with the minute's candle is accepted. */
  lemma CutAccepted(tape: seq<Trade>, first: nat, l: Ledger, proof: Bar)
    requires OnTape(tape, first, l) && l.predecessor.Some? && proof.Valid() && proof.ts == l.v.cut
    ensures Staged(l, TimeCut(l.v.cut + MINUTE), Some(proof)).Ok?
  {
    var end := End(tape, first, l);
    CutAligned(tape, Position(first, l.start), |l.log|);
    if end.next > first {
      PrintsBeforeCut(tape, l.start, first, |l.log|, end.next - 1);
    }
  }

  /** The chain can go on from every print of the tape. */
  lemma ChainGoesOn(tape: seq<Trade>, first: nat, l: Ledger)
    requires OnTape(tape, first, l) && l.predecessor.Some? && tape[|tape| - 1].id < MAX_U64
    ensures Addressable(l) && tape[0].id < NextId(l) <= tape[|tape| - 1].id + 1
  {
    hide Canonical, Reach;
    var end := End(tape, first, l);
    InTimeOrder(tape, first);
  }

  /** The last print in hand is of the tape, so the history window reaches it. */
  lemma WindowReaches(tape: seq<Trade>, first: nat, l: Ledger)
    requires OnTape(tape, first, l) && (l.v.lastId == 0 ==> l.v.lastTickTs < 0)
    ensures l.v.lastTickTs >= 0 ==> l.v.lastTickTs >= tape[0].ts
    ensures l.predecessor.Some? ==> l.predecessor.value.ts >= tape[0].ts && l.predecessor.value.Valid()
  {
    hide Canonical, Reach;
    var end := End(tape, first, l);
    FirstIsEarliest(tape, first - 1);
    if end.next > first {
      FirstIsEarliest(tape, end.next - 1);
    }
  }

  lemma FirstIsEarliest(tape: seq<Trade>, i: nat)
    requires ValidTape(tape) && i < |tape|
    ensures tape[0].ts <= tape[i].ts <= tape[|tape| - 1].ts && tape[i].Valid()
  {
  }

  // ---------- Staying true ----------

  lemma {:induction false} FirstProofIsTrue(proofs: seq<Bar>, minute: int, truth: int -> Bar)
    requires forall i :: 0 <= i < |proofs| ==> proofs[i] == truth(proofs[i].ts)
    ensures FirstProof(proofs, minute).Some? ==> FirstProof(proofs, minute).value == truth(minute)
  {
    if proofs != [] {
      FirstProofIsTrue(proofs[1..], minute, truth);
    }
  }

  lemma StagedIsTrue(l: Ledger, m: Message, proof: Option<Bar>, candles: map<int, Kline>, newest: int, tape: seq<Trade>,
                     truth: int -> Bar)
    requires Truthful(l, candles, newest, tape, truth) && Staged(l, m, proof).Ok? && l.predecessor.Some?
    requires !m.BarClose? && (proof.Some? ==> proof.value == truth(proof.value.ts))
    ensures Truthful(Staged(l, m, proof).value, candles, newest, tape, truth)
  {
    var proofs := if proof.Some? then l.proofs + [proof.value] else l.proofs;
    assert forall i :: 0 <= i < |proofs| ==> proofs[i] == truth(proofs[i].ts);
  }

  lemma CandleIsTrue(l: Ledger, candles: map<int, Kline>, newest: int, tape: seq<Trade>, truth: int -> Bar, row: Kline)
    requires Truthful(l, candles, newest, tape, truth) && row.bar == truth(row.bar.ts)
    ensures Truthful(l, candles[row.bar.ts := row], newest, tape, truth)
  {
  }

  /** What is left of true candles is true. */
  lemma FewerCandles(l: Ledger, candles: map<int, Kline>, newest: int, tape: seq<Trade>, truth: int -> Bar, after: int)
    requires Truthful(l, candles, newest, tape, truth)
    ensures Truthful(l, CandlesAfter(candles, after), newest, tape, truth)
  {
  }

  /** Behind the fence the venue's candle reconciles with the minute's prints, and its line is accepted. */
  lemma CandleCloses(venue: Venue, host: Host, limits: Limits, tape: seq<Trade>, first: nat, truth: int -> Bar,
                     l: Ledger, openedAt: nat, a: Aggregate, fence: Trade, candles: map<int, Kline>, newest: int)
    requires Cooperates(venue, host, limits, tape, first, l.start, truth) && Truthful(l, candles, newest, tape, truth)
    requires OnTape(tape, first, l) && OpenMinute(tape, first, l, openedAt, a) && l.predecessor.Some?
             && l.v.cut in candles
    requires OnTapePrint(tape, fence) && Addressable(l) && fence.id == NextId(l) && fence.ts >= l.v.cut + MINUTE
    ensures var candle, line := candles[l.v.cut], TimeCut(l.v.cut + MINUTE);
            && (venue.candleIsPrintSum ==> ReconcilesFenced(a, candle))
            && Staged(l, line, Some(candle.bar)).Ok?
            && Truthful(Staged(l, line, Some(candle.bar)).value, candles, newest, tape, truth)
            && Staged(l, line, Some(candle.bar)).value.start == l.start
  {
    hide Cooperates, OpenMinute, ReconcilesFenced, IsBarOf, MinuteOf, Canonical, Reach;
    var candle := candles[l.v.cut];
    assert candle.bar == truth(l.v.cut);
    AlignedCut(tape, first, l);
    TrueBar(venue, host, limits, tape, first, l.start, truth, l.v.cut);
    HeadOfTape(tape, first, l, fence);
    FenceCompletes(tape, first, l, openedAt, a, candle);
    CutAccepted(tape, first, l, candle.bar);
    StagedIsTrue(l, TimeCut(l.v.cut + MINUTE), Some(candle.bar), candles, newest, tape, truth);
  }

  lemma AlignedCut(tape: seq<Trade>, first: nat, l: Ledger)
    requires OnTape(tape, first, l)
    ensures l.v.cut >= l.start && l.v.cut % MINUTE == 0 && l.v.cut <= tape[|tape| - 1].ts
  {
    CutWithinTape(tape, l.start, first, |l.log|);
    CutAligned(tape, Position(first, l.start), |l.log|);
    hide Canonical, Reach;
    Multiples(l.start, l.v.cut);
  }

  lemma {:induction false} CutWithinTape(tape: seq<Trade>, start: int, first: nat, n: nat)
    requires Anchored(tape, start, first)
    ensures Reach(tape, Position(first, start), n).cut <= tape[|tape| - 1].ts
  {
    if n > 0 {
      CutWithinTape(tape, start, first, n - 1);
    }
  }

  lemma Multiples(start: int, cut: int)
    requires start % MINUTE == 0 && (cut - start) % MINUTE == 0
    ensures cut % MINUTE == 0
  {
  }

  predicate Shows(tape: seq<Trade>, id: nat) { tape != [] && 0 <= id - tape[0].id < |tape| }

  lemma EmptyPage(tape: seq<Trade>, from: nat)
    ensures IsPage(tape, from, [])
  {
  }

  /** A print ahead of the chain shows that the next one exists. */
  lemma GapIsShown(tape: seq<Trade>, first: nat, l: Ledger, t: Trade)
    requires OnTape(tape, first, l) && l.predecessor.Some? && tape[|tape| - 1].id < MAX_U64
    requires OnTapePrint(tape, t) && NextId(l) <= t.id
    ensures Addressable(l) && Shows(tape, NextId(l))
  {
    ChainGoesOn(tape, first, l);
  }

  lemma OneBar(t: Trade)
    requires t.ts == MINUTE && t.price == 1.0 && t.qty == 1.0
    ensures IsBarOf(Bar(MINUTE, 1.0, 1.0, 1.0, 1.0, 1.0), MinuteOf([t], MINUTE))
  {
    assert [t][..|[t]| - 1] == [];
    assert Between([], MINUTE, MINUTE + MINUTE) == [];
    assert MinuteOf([t], MINUTE) == [] + [t] == [t];
    assert Volume([t]) == 0.0 + t.qty;
  }

  /** Such a venue and host exist, whether or not candles are print sums: two prints around a start minute, each page
      and candle as asked for. */
  lemma SomeVenueCooperates(sums: bool)
    returns (venue: Venue, host: Host, limits: Limits, tape: seq<Trade>, truth: int -> Bar)
    ensures venue.candleIsPrintSum == sums
    ensures Cooperates(venue, host, limits, tape, 1, MINUTE, truth)
  {
    tape := [Trade(1, MINUTE - 1, 1.0, 1.0), Trade(2, MINUTE, 1.0, 1.0)];
    var prints := tape;
    truth := minute => Bar(minute, 1.0, 1.0, 1.0, 1.0, if minute == MINUTE then 1.0 else 0.0);
    var candle := truth;
    venue := Venue((call: nat, from: nat) => Ok(if from == 1 then prints else if from == 2 then prints[1..] else []),
                   (call: nat, lo: int, hi: int) => Ok([Kline(candle(lo), 0, 0, 0, true)]),
                   (call: nat) => Ok(Some(prints[0])), 0, sums);
    host := Host((call: nat) => false, (call: nat) => false, (call: nat) => JournalFormat.Segment(0, 0, 0, 0, -1));
    limits := Limits(0, trade => 0);
    forall call: nat, lo: int, hi: int | lo < hi
      ensures TrueRows(venue.klines(call, lo, hi).value, truth) && HasMinute(venue.klines(call, lo, hi).value, lo)
    {
      assert venue.klines(call, lo, hi).value[0].bar.ts == lo;
    }
    assert tape[..1] == [tape[0]] && tape[..1][..0] == [];
    assert ValidTape(tape);
    OneBar(tape[1]);
    assert tape[1..] == [tape[1]];
    assert TrueBars(venue, tape, 1, MINUTE, truth);
    assert Answers(venue, tape, 1, truth);
    assert Serves(venue, tape, 1);
    assert SumBytes(limits.bytesOf, tape[..1]) == limits.bytesOf(tape[0]) == 0;
  }
}
