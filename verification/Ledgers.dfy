/** Where a session's log stands on the tape, and what one more message or a restart does to it. */
module Ledgers {
  import opened Feed
  import opened Ordered
  import opened JournalFormat
  import opened Retention
  import opened Tape
  import opened Aggregates

  const STOPPED := 0

  /** The verified stream as a session sees it: the journal without bytes and hashes. */
  datatype Ledger = Ledger(mode: Mode, start: int, predecessor: Option<Trade>, v: Verified, proofs: seq<Bar>,
                           log: seq<Message>)

  function NextId(l: Ledger): nat { Previous(l.v.lastId, l.predecessor) + 1 }

  predicate Addressable(l: Ledger) { 0 < Previous(l.v.lastId, l.predecessor) < MAX_U64 }

  /** Verifies one message and its closed-minute proof against the stream. */
  function Staged(l: Ledger, m: Message, proof: Option<Bar>): Result<Ledger> {
    var v :- Advance(l.v, l.predecessor, m, l.mode);
    if proof.Some? && (!proof.value.Valid() || proof.value.ts + MINUTE != v.cut) then Err(23)
    else
      var proofs := if proof.Some? then l.proofs + [proof.value] else l.proofs;
      Ok(l.(v := v, log := l.log + [m], proofs := if |proofs| > 32 then proofs[1..] else proofs))
  }

  /** The venue's REST answers, as functions of how many calls came before and of the request. */
  datatype Venue = Venue(history: (nat, nat) -> Result<seq<Trade>>, klines: (nat, int, int) -> Result<seq<Kline>>,
                         predecessor: nat -> Result<Option<Trade>>, retentionMs: nat, candleIsPrintSum: bool)

  /** The candles of later minutes. */
  function CandlesAfter(candles: map<int, Kline>, cut: int): map<int, Kline> {
    map minute | minute in candles && minute > cut :: candles[minute]
  }

  /** Each candle is filed under its own minute. */
  ghost predicate Filed(candles: map<int, Kline>) {
    forall minute :: minute in candles ==> candles[minute].bar.ts == minute
  }

  ghost predicate AllAfter(candles: map<int, Kline>, cut: int) {
    forall minute :: minute in candles ==> minute > cut
  }

  lemma AfterCut(candles: map<int, Kline>, cut: int)
    requires Filed(candles)
    ensures Filed(CandlesAfter(candles, cut)) && AllAfter(CandlesAfter(candles, cut), cut)
  {
  }

  lemma FiledMore(candles: map<int, Kline>, row: Kline)
    requires Filed(candles)
    ensures Filed(candles[row.bar.ts := row])
  {
  }

  /** The venue's adapter returns whole minutes of the requested range only. */
  ghost predicate InRange(venue: Venue) {
    forall call, lo, hi, i: nat :: venue.klines(call, lo, hi).Ok? && i < |venue.klines(call, lo, hi).value| ==>
                                     var ts := venue.klines(call, lo, hi).value[i].bar.ts; lo <= ts && ts + MINUTE <= hi
  }

  /** Neither a buffered candle nor a minute closed since the session began is ahead of the newest confirmed candle. */
  ghost predicate Ended(venue: Venue, began: int, cut: int, candles: map<int, Kline>, watermark: int) {
    InRange(venue) ==>
      && (cut == began || cut <= watermark)
      && forall minute :: minute in candles ==> minute + MINUTE <= watermark
  }

  lemma RowEnded(venue: Venue, began: int, cut: int, candles: map<int, Kline>, watermark: int, call: nat, lo: int,
                 hi: int, i: nat)
    requires Ended(venue, began, cut, candles, watermark) && hi <= watermark
    requires venue.klines(call, lo, hi).Ok? && i < |venue.klines(call, lo, hi).value|
    ensures var row := venue.klines(call, lo, hi).value[i];
            Ended(venue, began, cut, candles[row.bar.ts := row], watermark)
  {
  }

  lemma ConfirmedEnded(venue: Venue, began: int, cut: int, candles: map<int, Kline>, watermark: int, later: int)
    requires Ended(venue, began, cut, candles, watermark) && watermark <= later
    ensures Ended(venue, began, cut, candles, later)
    ensures forall row: Kline :: row.bar.ts + MINUTE <= later ==>
              Ended(venue, began, cut, candles[row.bar.ts := row], later)
  {
  }

  lemma ClosedEnded(venue: Venue, began: int, cut: int, candles: map<int, Kline>, watermark: int)
    requires Ended(venue, began, cut, candles, watermark) && cut in candles
    ensures Ended(venue, began, cut + MINUTE, CandlesAfter(candles, cut), watermark)
  {
  }

  /** Stop requests, failed publications and expiries, as functions of the same count. */
  datatype Host = Host(stops: nat -> bool, publishFails: nat -> bool, front: nat -> Segment)

  /** Stages one message; a stop or a failed publication may end a session before or after it. */
  method Publish(host: Host, calls: nat, ledger: Ledger, front: Segment, m: Message, proof: Option<Bar>)
    returns (r: Result<()>, next: Ledger, retained: Segment)
    ensures next == ledger || (Staged(ledger, m, proof).Ok? && next == Staged(ledger, m, proof).value)
    ensures r.Ok? ==> Staged(ledger, m, proof).Ok? && next == Staged(ledger, m, proof).value
    ensures Staged(ledger, m, proof).Ok? && !host.stops(calls) && !host.publishFails(calls) ==> r.Ok?
    ensures host.stops(calls) ==> r == Err(STOPPED) && next == ledger && retained == front
    ensures !host.stops(calls) && Staged(ledger, m, proof).Err? ==>
              r == Err(Staged(ledger, m, proof).code) && next == ledger && retained == front
    ensures !host.stops(calls) && Staged(ledger, m, proof).Ok? ==>
              next == Staged(ledger, m, proof).value && retained == host.front(calls)
              && r == if host.publishFails(calls) then Err(22) else Ok(())
  {
    next, retained := ledger, front;
    if host.stops(calls) {
      return Err(STOPPED), next, retained;
    }
    var staged := Staged(ledger, m, proof);
    if staged.Err? {
      return Err(staged.code), next, retained;
    }
    next, retained := staged.value, host.front(calls);
    r := if host.publishFails(calls) then Err(22) else Ok(());
  }

  function Later(a: int, b: int): (later: int)
    ensures later >= a && later >= b && (later == a || later == b)
  {
    if a < b then b else a
  }

  datatype Limits = Limits(maxQueueBytes: nat, bytesOf: Trade -> nat)

  datatype Event = Print(trade: Trade) | Candle(kline: Kline)

  ghost predicate OnTapePrint(tape: seq<Trade>, t: Trade) {
    tape != [] && 0 <= t.id - tape[0].id < |tape| && t == tape[t.id - tape[0].id]
  }

  /** A page is a run of the tape from the requested ID; it may be short or empty. */
  ghost predicate IsPage(tape: seq<Trade>, from: nat, page: seq<Trade>) {
    forall i :: 0 <= i < |page| ==> OnTapePrint(tape, page[i]) && page[i].id == from + i
  }

  /** The venue serves this tape, and names its last print before the start as the predecessor. */
  ghost predicate Serves(venue: Venue, tape: seq<Trade>, first: nat) {
    && 0 < first < |tape|
    && (forall call, from :: venue.history(call, from).Ok? ==> IsPage(tape, from, venue.history(call, from).value))
    && (forall call :: venue.predecessor(call).Ok? && venue.predecessor(call).value.Some? ==>
                         venue.predecessor(call).value.value == tape[first - 1])
  }

  // ---------- Where a ledger stands on the tape ----------

  function End(tape: seq<Trade>, first: nat, l: Ledger): Position { Reach(tape, Position(first, l.start), |l.log|) }

  /** The log is the tape's message sequence so far, and the verified fields are those of its end. */
  ghost predicate OnTape(tape: seq<Trade>, first: nat, l: Ledger) {
    && Anchored(tape, l.start, first) && l.start >= 0 && l.start % MINUTE == 0 && l.mode.TickMode()
    && Canonical(tape, Position(first, l.start), l.log)
    && (l.predecessor == if l.log == [] && l.predecessor == None then None else Some(tape[first - 1]))
    && var end := End(tape, first, l);
    && l.v.cut == end.cut && first <= end.next <= |tape|
    && (if end.next == first then l.v.lastId == 0 && l.v.lastTickTs < l.start
        else l.v.lastId == tape[end.next - 1].id && l.v.lastTickTs == tape[end.next - 1].ts)
  }

  /** The open minute's emitted prints are one run of the tape, and the aggregate is theirs. */
  ghost predicate OpenMinute(tape: seq<Trade>, first: nat, l: Ledger, openedAt: nat, a: Aggregate) {
    var end := End(tape, first, l);
    && first <= openedAt <= end.next <= |tape|
    && (forall j :: first <= j < openedAt ==> tape[j].ts < end.cut)
    && (forall j :: openedAt <= j < end.next ==> end.cut <= tape[j].ts < end.cut + MINUTE)
    && Summarizes(a, tape[openedAt..end.next])
  }

  /** Every `time` line closed a minute with a candle; where candles are print sums it is the bar of the minute's
      prints. */
  ghost predicate Closed(tape: seq<Trade>, first: nat, l: Ledger, closes: map<int, Kline>, sums: bool) {
    && first <= |tape|
    && (forall k :: 0 <= k < |l.log| && l.log[k].TimeCut? ==> l.log[k].cut - MINUTE in closes)
    && (sums ==> forall minute :: minute in closes ==> IsBarOf(closes[minute].bar, MinuteOf(tape[first..], minute)))
  }

  function TotalBytes(bytesOf: Trade -> nat, pending: map<nat, Trade>): nat
    decreases |pending|
  {
    if pending == map[] then 0
    else
      var id := Least(pending.Keys);
      assert |pending - {id}| == |pending| - 1 by { assert (pending - {id}).Keys == pending.Keys - {id}; }
      bytesOf(pending[id]) + TotalBytes(bytesOf, pending - {id})
  }

  lemma {:induction false} TotalBytesRemove(bytesOf: Trade -> nat, pending: map<nat, Trade>, id: nat)
    requires id in pending
    ensures TotalBytes(bytesOf, pending) == bytesOf(pending[id]) + TotalBytes(bytesOf, pending - {id})
    decreases |pending|
  {
    var least := Least(pending.Keys);
    if id != least {
      assert (pending - {least}).Keys == pending.Keys - {least};
      TotalBytesRemove(bytesOf, pending - {least}, id);
      assert pending - {least} - {id} == pending - {id} - {least};
      assert (pending - {id}).Keys == pending.Keys - {id};
      assert least in pending - {id} && Least((pending - {id}).Keys) == least;
    }
  }

  lemma TotalBytesInsert(bytesOf: Trade -> nat, pending: map<nat, Trade>, id: nat, t: Trade)
    requires id !in pending
    ensures TotalBytes(bytesOf, pending[id := t]) == TotalBytes(bytesOf, pending) + bytesOf(t)
  {
    TotalBytesRemove(bytesOf, pending[id := t], id);
    assert pending[id := t] - {id} == pending;
  }

  // ---------- What one staged message does ----------

  lemma {:induction false} CutAligned(tape: seq<Trade>, from: Position, n: nat)
    ensures from.cut <= Reach(tape, from, n).cut && (Reach(tape, from, n).cut - from.cut) % MINUTE == 0
  {
    if n > 0 {
      CutAligned(tape, from, n - 1);
    }
  }

  /** A staged message that is the tape's next keeps the ledger on the tape. */
  lemma NextStaged(tape: seq<Trade>, first: nat, l: Ledger, m: Message, proof: Option<Bar>)
    requires OnTape(tape, first, l) && End(tape, first, l).next < |tape|
    requires m == Next(tape, End(tape, first, l)) && Staged(l, m, proof).Ok?
    ensures OnTape(tape, first, Staged(l, m, proof).value)
    ensures End(tape, first, Staged(l, m, proof).value) == Moved(tape, End(tape, first, l))
  {
    CanonicalExtends(tape, Position(first, l.start), l.log);
    hide Canonical, Anchored;
    assert End(tape, first, Staged(l, m, proof).value) == Moved(tape, End(tape, first, l));
    hide Reach;
  }

  lemma TickStaged(tape: seq<Trade>, first: nat, l: Ledger, openedAt: nat, a: Aggregate, t: Trade)
    requires OnTape(tape, first, l) && OpenMinute(tape, first, l, openedAt, a)
    requires End(tape, first, l).next < |tape| && t == tape[End(tape, first, l).next]
    requires Staged(l, Tick(t), None).Ok?
    ensures Add(a, t).Ok?
    ensures var l2 := Staged(l, Tick(t), None).value;
            OnTape(tape, first, l2) && OpenMinute(tape, first, l2, openedAt, Add(a, t).value)
  {
    hide Anchored, Canonical, Reach, Summarizes, Run;
    var end := End(tape, first, l);
    RunOfTape(tape, l.start, first, openedAt, end.next + 1);
    NextStaged(tape, first, l, Tick(t), None);
    hide OnTape;
    var prints := tape[openedAt..end.next];
    assert prints + [t] == tape[openedAt..end.next + 1];
    AddRun(a, prints, t);
    AddSummarizes(a, prints, t);
  }

  lemma RunOfTape(tape: seq<Trade>, start: int, first: nat, lo: nat, hi: nat)
    requires Anchored(tape, start, first) && lo <= hi <= |tape|
    ensures Run(tape[lo..hi])
  {
  }

  lemma CutStaged(tape: seq<Trade>, first: nat, l: Ledger, openedAt: nat, a: Aggregate, proof: Bar)
    requires OnTape(tape, first, l) && OpenMinute(tape, first, l, openedAt, a)
    requires End(tape, first, l).next < |tape| && tape[End(tape, first, l).next].ts >= l.v.cut + MINUTE
    requires Staged(l, TimeCut(l.v.cut + MINUTE), Some(proof)).Ok?
    ensures var l2 := Staged(l, TimeCut(l.v.cut + MINUTE), Some(proof)).value;
            OnTape(tape, first, l2) && OpenMinute(tape, first, l2, End(tape, first, l).next, EMPTY)
  {
    NextStaged(tape, first, l, TimeCut(l.v.cut + MINUTE), Some(proof));
    hide Canonical, Anchored, Reach;
    assert Summarizes(EMPTY, []);
  }

  /** Behind the fence the aggregate holds all prints of the open minute. */
  lemma FenceCompletes(tape: seq<Trade>, first: nat, l: Ledger, openedAt: nat, a: Aggregate, candle: Kline)
    requires OnTape(tape, first, l) && OpenMinute(tape, first, l, openedAt, a)
    requires End(tape, first, l).next < |tape| && tape[End(tape, first, l).next].ts >= l.v.cut + MINUTE
    ensures ReconcilesFenced(a, candle) <==> IsBarOf(candle.bar, MinuteOf(tape[first..], l.v.cut))
  {
    hide Canonical, Reach, Summarizes, Between;
    var end := End(tape, first, l);
    var prints := tape[first..];
    forall k | 0 <= k < |prints|
      ensures l.v.cut <= prints[k].ts < l.v.cut + MINUTE <==> openedAt - first <= k < end.next - first
    {
      assert prints[k] == tape[first + k];
      assert first + k >= end.next ==> tape[end.next].ts <= tape[first + k].ts;
    }
    BetweenIsRun(prints, l.v.cut, l.v.cut + MINUTE, openedAt - first, end.next - first);
    assert prints[openedAt - first..end.next - first] == tape[openedAt..end.next];
    ReconcilesExactly(a, tape[openedAt..end.next], candle);
  }

  lemma AnchorStaged(tape: seq<Trade>, first: nat, l: Ledger, openedAt: nat, a: Aggregate)
    requires OnTape(tape, first, l) && OpenMinute(tape, first, l, openedAt, a) && l.predecessor == None
    ensures OnTape(tape, first, l.(predecessor := Some(tape[first - 1])))
    ensures OpenMinute(tape, first, l.(predecessor := Some(tape[first - 1])), openedAt, a)
  {
  }

  /**
   * A `time` line on the tape: every print before it has been emitted and no other, and where the candle is a print
   * sum the candle that closed the minute is the bar of exactly the minute's prints.
   */
  lemma {:induction false} EveryTimeLineHolds(tape: seq<Trade>, first: nat, l: Ledger, closes: map<int, Kline>,
                                              sums: bool, k: nat)
    requires OnTape(tape, first, l) && Closed(tape, first, l, closes, sums) && k < |l.log| && l.log[k].TimeCut?
    ensures var done := Reach(tape, Position(first, l.start), k).next;
            && first <= done <= |tape| && PrintsIn(l.log[..k]) == tape[first..done]
            && forall j :: first <= j < |tape| ==> (j < done <==> tape[j].ts < l.log[k].cut)
    ensures l.log[k].cut - MINUTE in closes
    ensures sums ==> IsBarOf(closes[l.log[k].cut - MINUTE].bar, MinuteOf(tape[first..], l.log[k].cut - MINUTE))
  {
    hide Canonical, Reach, PrintsIn, IsBarOf, Between;
    TimeLineIsComplete(tape, l.start, first, l.log, k, first);
    forall j | first <= j < |tape|
      ensures j < Reach(tape, Position(first, l.start), k).next <==> tape[j].ts < l.log[k].cut
    {
      TimeLineIsComplete(tape, l.start, first, l.log, k, j);
    }
  }

  /** The first print with this ID, as the journal finds it. */
  function FindIn(prints: seq<Trade>, id: nat): Option<Trade> {
    if prints == [] then None
    else
      var earlier := FindIn(prints[..|prints| - 1], id);
      if earlier.None? && prints[|prints| - 1].id == id then Some(prints[|prints| - 1]) else earlier
  }

  lemma {:induction false} FindInRun(prints: seq<Trade>, id: nat)
    requires Run(prints)
    ensures match FindIn(prints, id)
            case Some(t) => t in prints && t.id == id
            case None => forall t :: t in prints ==> t.id != id
  {
    if prints != [] {
      FindInRun(prints[..|prints| - 1], id);
    }
  }

  /** An emitted print of the tape is found again unchanged, so a true duplicate is never refused. */
  lemma DuplicateAgrees(tape: seq<Trade>, first: nat, l: Ledger, t: Trade)
    requires OnTape(tape, first, l) && OnTapePrint(tape, t) && t.ts >= l.start && t.id <= l.v.lastId
    ensures FindIn(PrintsIn(l.log), t.id) == Some(t)
  {
    var end := End(tape, first, l);
    PrintsAreContiguous(tape, Position(first, l.start), l.log);
    RunOfTape(tape, l.start, first, first, end.next);
    var emitted := tape[first..end.next];
    var j := t.id - tape[0].id;
    assert first <= j < end.next by {
      hide Canonical, Reach, Run, PrintsIn, FindIn;
    }
    hide Run, PrintsIn, FindIn, Canonical, Reach, ValidTape;
    assert emitted[j - first] == t;
    FindInRun(emitted, t.id);
    UniqueInRun(tape, l.start, first, t);
  }

  lemma UniqueInRun(tape: seq<Trade>, start: int, first: nat, t: Trade)
    requires Anchored(tape, start, first) && OnTapePrint(tape, t)
    ensures forall u :: u in tape && u.id == t.id ==> u == t
  {
  }

  /** Every print in hand after the predecessor lies at or after the start. */
  lemma AheadOfStart(tape: seq<Trade>, first: nat, l: Ledger, t: Trade)
    requires OnTape(tape, first, l) && OnTapePrint(tape, t) && l.predecessor.Some?
    ensures t.Valid() && (t.ts >= l.start <==> t.id > l.predecessor.value.id)
    ensures t.id >= NextId(l) ==> t.ts >= l.start
  {
    var j := t.id - tape[0].id;
    if j >= first {
      assert tape[first].ts <= tape[j].ts;
    } else {
      assert tape[j].ts <= tape[first - 1].ts;
    }
  }

  lemma SamePrint(tape: seq<Trade>, a: Trade, b: Trade)
    requires OnTapePrint(tape, a) && OnTapePrint(tape, b) && a.id == b.id
    ensures a == b
  {
  }

  /** The print after the log is the tape's next print. */
  lemma HeadOfTape(tape: seq<Trade>, first: nat, l: Ledger, t: Trade)
    requires OnTape(tape, first, l) && OnTapePrint(tape, t) && Addressable(l) && t.id == NextId(l)
    ensures End(tape, first, l).next < |tape| && t == tape[End(tape, first, l).next]
  {
  }

  lemma SameLog(tape: seq<Trade>, first: nat, l: Ledger, predecessor: Option<Trade>, closes: map<int, Kline>,
                sums: bool)
    requires Closed(tape, first, l, closes, sums)
    ensures Closed(tape, first, l.(predecessor := predecessor), closes, sums)
  {
  }

  lemma StillClosed(tape: seq<Trade>, first: nat, l: Ledger, m: Message, proof: Option<Bar>, closes: map<int, Kline>,
                    sums: bool)
    requires Closed(tape, first, l, closes, sums) && Staged(l, m, proof).Ok?
    requires m.TimeCut? ==> m.cut - MINUTE in closes
    ensures Closed(tape, first, Staged(l, m, proof).value, closes, sums)
  {
    hide IsBarOf, MinuteOf;
  }

  lemma TickEmitted(tape: seq<Trade>, first: nat, l: Ledger, openedAt: nat, a: Aggregate, t: Trade,
                    closes: map<int, Kline>, sums: bool)
    requires OnTape(tape, first, l) && OpenMinute(tape, first, l, openedAt, a) && Closed(tape, first, l, closes, sums)
    requires OnTapePrint(tape, t) && Addressable(l) && t.id == NextId(l) && Staged(l, Tick(t), None).Ok?
    ensures Add(a, t).Ok?
    ensures var l2 := Staged(l, Tick(t), None).value;
            OnTape(tape, first, l2) && OpenMinute(tape, first, l2, openedAt, Add(a, t).value)
              && Closed(tape, first, l2, closes, sums)
  {
    HeadOfTape(tape, first, l, t);
    TickStaged(tape, first, l, openedAt, a, t);
    StillClosed(tape, first, l, Tick(t), None, closes, sums);
  }

  /** The `time` line behind a fence closes the minute with a candle that is its bar. */
  lemma CutEmitted(tape: seq<Trade>, first: nat, l: Ledger, openedAt: nat, a: Aggregate, fence: Trade,
                   closes: map<int, Kline>, candle: Kline, sums: bool) returns (cutAt: nat)
    requires OnTape(tape, first, l) && OpenMinute(tape, first, l, openedAt, a) && Closed(tape, first, l, closes, sums)
    requires OnTapePrint(tape, fence) && Addressable(l) && fence.id == NextId(l) && fence.ts >= l.v.cut + MINUTE
    requires sums ==> ReconcilesFenced(a, candle)
    ensures Closed(tape, first, l, closes[l.v.cut := candle], sums)
    ensures var s := Staged(l, TimeCut(l.v.cut + MINUTE), Some(candle.bar));
            s.Ok? ==> OnTape(tape, first, s.value) && OpenMinute(tape, first, s.value, cutAt, EMPTY)
                      && Closed(tape, first, s.value, closes[l.v.cut := candle], sums)
  {
    HeadOfTape(tape, first, l, fence);
    FenceCompletes(tape, first, l, openedAt, a, candle);
    hide OnTape, OpenMinute, ReconcilesFenced, IsBarOf, MinuteOf;
    cutAt := End(tape, first, l).next;
    if Staged(l, TimeCut(l.v.cut + MINUTE), Some(candle.bar)).Ok? {
      CutStaged(tape, first, l, openedAt, a, candle.bar);
      hide Closed;
      Reclosed(tape, first, l, closes, candle, sums);
      StillClosed(tape, first, l, TimeCut(l.v.cut + MINUTE), Some(candle.bar), closes[l.v.cut := candle], sums);
    }
  }

  lemma Reclosed(tape: seq<Trade>, first: nat, l: Ledger, closes: map<int, Kline>, candle: Kline, sums: bool)
    requires Closed(tape, first, l, closes, sums) && (sums ==> IsBarOf(candle.bar, MinuteOf(tape[first..], l.v.cut)))
    ensures Closed(tape, first, l, closes[l.v.cut := candle], sums)
  {
    hide IsBarOf, MinuteOf;
  }

  lemma Moves(l: Ledger, m: Message, proof: Option<Bar>)
    requires Staged(l, m, proof).Ok? && !m.BarClose?
    ensures var l2 := Staged(l, m, proof).value;
            && l2.start == l.start && l2.predecessor == l.predecessor
              && l2.v.lastId == (if m.Tick? then m.trade.id else l.v.lastId)
            && l2.v.cut == (if m.TimeCut? then l.v.cut + MINUTE else l.v.cut)
    ensures m.Tick? && Addressable(l) ==> NextId(Staged(l, m, proof).value) == m.trade.id + 1 == NextId(l) + 1
  {
  }

  // ---------- Rebuilding an aggregate from the journal ----------

  function FirstProof(proofs: seq<Bar>, minute: int): Option<Bar> {
    if proofs == [] then None else if proofs[0].ts == minute then Some(proofs[0]) else FirstProof(proofs[1..], minute)
  }

  /** Adds up the journal's prints with a time in [lo, hi); it is refused only when they are no run. */
  method Refold(log: seq<Message>, lo: int, hi: int) returns (r: Result<Aggregate>)
    ensures r.Ok? ==> Summarizes(r.value, Between(PrintsIn(log), lo, hi))
    ensures Run(Between(PrintsIn(log), lo, hi)) ==> r.Ok?
  {
    hide Run, Summarizes, Add, PrintsIn, Between;
    EmptySummarizes(lo, hi);
    var a, i := EMPTY, 0;
    assert log[..0] == [];
    while i < |log|
      invariant i <= |log| && Summarizes(a, Between(PrintsIn(log[..i]), lo, hi))
    {
      RefoldStep(log, i, lo, hi, a);
      if log[i].Tick? && lo <= log[i].trade.ts < hi {
        a :- Add(a, log[i].trade);
      }
      i := i + 1;
    }
    assert log[..i] == log;
    return Ok(a);
  }

  lemma RefoldStep(log: seq<Message>, i: nat, lo: int, hi: int, a: Aggregate)
    requires i < |log| && Summarizes(a, Between(PrintsIn(log[..i]), lo, hi))
    ensures var next := Between(PrintsIn(log[..i + 1]), lo, hi);
            if log[i].Tick? && lo <= log[i].trade.ts < hi
            then (Add(a, log[i].trade).Ok? ==> Summarizes(Add(a, log[i].trade).value, next))
                 && (Run(Between(PrintsIn(log), lo, hi)) ==> Add(a, log[i].trade).Ok?)
            else Summarizes(a, next)
  {
    hide Run, Summarizes, Add;
    assert log[..i + 1][..i] == log[..i];
    var prints := Between(PrintsIn(log[..i]), lo, hi);
    if log[i].Tick? && lo <= log[i].trade.ts < hi {
      assert Between(PrintsIn(log[..i + 1]), lo, hi) == prints + [log[i].trade];
      BetweenPrefix(log, i + 1, lo, hi);
      if Run(Between(PrintsIn(log), lo, hi)) {
        RunPrefix(prints + [log[i].trade], Between(PrintsIn(log), lo, hi));
        AddRun(a, prints, log[i].trade);
      }
      if Add(a, log[i].trade).Ok? {
        AddSummarizes(a, prints, log[i].trade);
      }
    }
  }

  /** No print of the open minute lies before this index. */
  ghost predicate NothingOpen(l: Ledger, from: nat) {
    from <= |l.log| && forall i :: 0 <= i < from ==> l.log[i].Tick? ==> l.log[i].trade.ts < l.v.cut
  }

  /** The open minute's prints can be read from there on. */
  lemma {:induction false} OpenPrintsFrom(log: seq<Message>, from: nat, lo: int, hi: int)
    requires from <= |log| && forall i :: 0 <= i < from ==> log[i].Tick? ==> log[i].trade.ts < lo
    ensures Between(PrintsIn(log[from..]), lo, hi) == Between(PrintsIn(log), lo, hi)
    decreases |log|
  {
    if log != [] {
      var last, front := |log| - 1, log[..|log| - 1];
      if from < |log| {
        assert log[from..][..last - from] == front[from..];
        OpenPrintsFrom(front, from, lo, hi);
      } else {
        assert log[from..] == [] && front[last..] == [];
        OpenPrintsFrom(front, last, lo, hi);
      }
    }
  }

  lemma EmptySummarizes(lo: int, hi: int)
    ensures Summarizes(EMPTY, Between(PrintsIn([]), lo, hi))
  {
  }

  lemma RunPrefix(a: seq<Trade>, b: seq<Trade>)
    requires a <= b && Run(b)
    ensures Run(a)
  {
  }

  lemma {:induction false} BetweenPrefix(log: seq<Message>, n: nat, lo: int, hi: int)
    requires n <= |log|
    ensures Between(PrintsIn(log[..n]), lo, hi) <= Between(PrintsIn(log), lo, hi)
    decreases |log|
  {
    if n < |log| {
      assert log[..|log| - 1][..n] == log[..n];
      BetweenPrefix(log[..|log| - 1], n, lo, hi);
    } else {
      assert log[..n] == log;
    }
  }

  /** In time order, a time range is one run. */
  lemma {:induction false} BetweenIsSlice(prints: seq<Trade>, lo: int, hi: int) returns (i: nat, j: nat)
    requires forall m, n :: 0 <= m <= n < |prints| ==> prints[m].ts <= prints[n].ts
    ensures i <= j <= |prints| && Between(prints, lo, hi) == prints[i..j]
    ensures i < j < |prints| ==> prints[|prints| - 1].ts >= hi
  {
    i, j := 0, 0;
    if prints != [] {
      var n := |prints| - 1;
      i, j := BetweenIsSlice(prints[..n], lo, hi);
      assert n > 0 ==> prints[n - 1].ts <= prints[n].ts;
      assert prints[..n][i..j] == prints[i..j];
      if lo <= prints[n].ts < hi {
        if i == j {
          i := n;
        }
        j := n + 1;
        assert prints[i..j] == prints[i..n] + [prints[n]];
      } else if i < j {
        var k := j - 1;
        RangeMember(prints[..n], lo, hi, i, j);
        assert lo <= prints[k].ts <= prints[n].ts;
      }
    }
  }

  lemma RangeMember(prints: seq<Trade>, lo: int, hi: int, i: nat, j: nat)
    requires i < j <= |prints| && Between(prints, lo, hi) == prints[i..j]
    ensures lo <= prints[j - 1].ts < hi
  {
    BetweenMembers(prints, lo, hi);
    assert prints[j - 1] == prints[i..j][j - 1 - i];
  }

  lemma {:induction false} BetweenMembers(prints: seq<Trade>, lo: int, hi: int)
    ensures forall t :: t in Between(prints, lo, hi) ==> lo <= t.ts < hi
  {
    if prints != [] {
      BetweenMembers(prints[..|prints| - 1], lo, hi);
    }
  }

  /** The journal's prints at or after the cut are those of the open minute. */
  lemma OpenMinuteInLog(tape: seq<Trade>, first: nat, l: Ledger, openedAt: nat)
    requires OnTape(tape, first, l)
    requires var end := End(tape, first, l);
             && first <= openedAt <= end.next
             && (forall j :: first <= j < openedAt ==> tape[j].ts < end.cut)
             && (forall j :: openedAt <= j < end.next ==> end.cut <= tape[j].ts < end.cut + MINUTE)
    ensures Between(PrintsIn(l.log), l.v.cut, MAX_I64 + 1) == tape[openedAt..End(tape, first, l).next]
    ensures Run(tape[openedAt..End(tape, first, l).next])
  {
    hide Canonical, Reach, PrintsIn, Between, Anchored, Run;
    var end := End(tape, first, l);
    PrintsAreContiguous(tape, Position(first, l.start), l.log);
    RunOfTape(tape, l.start, first, openedAt, end.next);
    TimesFit(tape, l.start, first, end.next);
    BetweenIsRun(tape[first..end.next], l.v.cut, MAX_I64 + 1, openedAt - first, end.next - first);
    assert tape[first..end.next][openedAt - first..] == tape[openedAt..end.next];
  }

  lemma TimesFit(tape: seq<Trade>, start: int, first: nat, hi: nat)
    requires Anchored(tape, start, first) && first <= hi <= |tape|
    ensures forall j :: 0 <= j < hi - first ==> tape[first..hi][j].ts <= MAX_I64
  {
  }

  /** A closed minute's journal prints are all of that minute's prints. */
  lemma ClosedMinuteInLog(tape: seq<Trade>, first: nat, l: Ledger, minute: int)
    requires OnTape(tape, first, l) && l.start <= minute < l.v.cut && minute % MINUTE == 0
    ensures MinuteOf(PrintsIn(l.log), minute) == MinuteOf(tape[first..], minute)
    ensures Run(MinuteOf(PrintsIn(l.log), minute))
  {
    hide Canonical, Reach, PrintsIn, Between, Anchored, Run;
    var end := End(tape, first, l);
    PrintsAreContiguous(tape, Position(first, l.start), l.log);
    CutAligned(tape, Position(first, l.start), |l.log|);
    RestAfterCut(tape, l.start, first, |l.log|);
    WholeMinutes(l.start, minute, end.cut);
    MinuteIsRun(tape, l.start, first, end.next, minute);
    var prints := tape[first..];
    assert prints[..end.next - first] == tape[first..end.next];
    BetweenFront(prints, minute, minute + MINUTE, end.next - first);
  }

  lemma WholeMinutes(start: int, minute: int, cut: int)
    requires start % MINUTE == 0 && minute % MINUTE == 0 && (cut - start) % MINUTE == 0 && minute < cut
    ensures minute + MINUTE <= cut
  {
  }

  lemma MinuteIsRun(tape: seq<Trade>, start: int, first: nat, hi: nat, minute: int)
    requires Anchored(tape, start, first) && first <= hi <= |tape|
    ensures Run(MinuteOf(tape[first..hi], minute))
  {
    InOrder(tape, start, first, first, hi);
    hide Run, Anchored, Between;
    var i, j := BetweenIsSlice(tape[first..hi], minute, minute + MINUTE);
    RunOfTape(tape, start, first, first + i, first + j);
    SliceOfSlice(tape, first, hi, i, j);
  }

  lemma SliceOfSlice(tape: seq<Trade>, lo: nat, hi: nat, i: nat, j: nat)
    requires lo <= hi <= |tape| && i <= j <= hi - lo
    ensures tape[lo..hi][i..j] == tape[lo + i..lo + j]
  {
    var a, b := tape[lo..hi][i..j], tape[lo + i..lo + j];
    assert forall k :: 0 <= k < |a| ==> a[k] == tape[lo + i + k] == b[k];
  }

  lemma InOrder(tape: seq<Trade>, start: int, first: nat, lo: nat, hi: nat)
    requires Anchored(tape, start, first) && lo <= hi <= |tape|
    ensures forall m, n :: 0 <= m <= n < hi - lo ==> tape[lo..hi][m].ts <= tape[lo..hi][n].ts
  {
  }

  lemma {:induction false} RestAfterCut(tape: seq<Trade>, start: int, first: nat, n: nat)
    requires Anchored(tape, start, first)
    ensures var p := Reach(tape, Position(first, start), n);
            first <= p.next <= |tape| && forall j :: p.next <= j < |tape| ==> tape[j].ts >= p.cut
  {
    if n > 0 {
      RestAfterCut(tape, start, first, n - 1);
    }
  }

  // ---------- Restart ----------

  /** The verified position after a log, from the start. */
  function Fold(start: int, predecessor: Option<Trade>, mode: Mode, log: seq<Message>): Result<Verified> {
    if log == [] then Ok(Verified(0, 0, "", "", start, 0, -1, -1))
    else
      var v :- Fold(start, predecessor, mode, log[..|log| - 1]);
      Advance(v, predecessor, log[|log| - 1], mode)
  }

  /** A journal of bars is accepted exactly when it is the valid bars of consecutive minutes from the start. */
  lemma {:induction false} BarsAreContiguous(start: int, predecessor: Option<Trade>, log: seq<Message>)
    ensures Fold(start, predecessor, Bars, log).Ok?
       <==> forall i :: 0 <= i < |log| ==> log[i].BarClose? && log[i].bar.Valid() && log[i].bar.ts == start + i * MINUTE
    ensures Fold(start, predecessor, Bars, log).Ok? ==>
              var v := Fold(start, predecessor, Bars, log).value;
              && v.cut == start + |log| * MINUTE && v.lastId == 0
              && v.lastBar == if log == [] then -1 else log[|log| - 1].bar.ts
  {
    if log != [] {
      var front, last := log[..|log| - 1], log[|log| - 1];
      BarsAreContiguous(start, predecessor, front);
      assert forall i :: 0 <= i < |front| ==> front[i] == log[i];
    }
  }

  predicate WellFormed(m: Message, mode: Mode) {
    match m
    case Tick(trade) => mode.TickMode() && trade.Valid()
    case BarClose(bar) => !mode.TickMode() && bar.Valid()
    case TimeCut(_) => mode.TickMode()
  }

  /** A message of another mode or a malformed one is refused with 23, one out of its place with 20. */
  lemma AdvanceRefuses(v: Verified, predecessor: Option<Trade>, m: Message, mode: Mode)
    ensures var r := Advance(v, predecessor, m, mode);
            r.Err? ==> r.code == if WellFormed(m, mode) then 20 else 23
  {
  }

  predicate SamePosition(a: Verified, b: Verified) {
    a.cut == b.cut && a.lastId == b.lastId && a.lastTickTs == b.lastTickTs
  }

  /** A journal of the tape from which a session restarts, reading the open minute's prints from this index on. */
  ghost predicate Restartable(tape: seq<Trade>, first: nat, l: Ledger, from: nat, closes: map<int, Kline>, sums: bool) {
    && NothingOpen(l, from) && Closed(tape, first, l, closes, sums)
    && Anchored(tape, l.start, first) && l.start >= 0 && l.start % MINUTE == 0 && l.mode.TickMode()
    && Canonical(tape, Position(first, l.start), l.log)
    && (l.predecessor == Some(tape[first - 1]) || (l.predecessor == None && l.log == []))
    && Fold(l.start, l.predecessor, l.mode, l.log).Ok?
    && SamePosition(Fold(l.start, l.predecessor, l.mode, l.log).value, l.v)
  }

  /** Any journal that verifies and lies on the tape restarts a session at the right place. */
  lemma {:induction false} RestartOnTape(tape: seq<Trade>, first: nat, l: Ledger) returns (openedAt: nat)
    requires Anchored(tape, l.start, first) && l.start >= 0 && l.start % MINUTE == 0 && l.mode.TickMode()
    requires Canonical(tape, Position(first, l.start), l.log)
    requires l.predecessor == Some(tape[first - 1]) || (l.predecessor == None && l.log == [])
    requires Fold(l.start, l.predecessor, l.mode, l.log).Ok?
             && SamePosition(Fold(l.start, l.predecessor, l.mode, l.log).value, l.v)
    ensures OnTape(tape, first, l)
    ensures var end := End(tape, first, l);
            && first <= openedAt <= end.next
            && (forall j :: first <= j < openedAt ==> tape[j].ts < end.cut)
            && (forall j :: openedAt <= j < end.next ==> end.cut <= tape[j].ts < end.cut + MINUTE)
    decreases |l.log|
  {
    if l.log == [] {
      openedAt := first;
    } else {
      CanonicalFront(tape, Position(first, l.start), l.log);
      hide Canonical, Anchored, Reach;
      var front := l.log[..|l.log| - 1];
      var v := Fold(l.start, l.predecessor, l.mode, front).value;
      var before := l.(log := front, v := v);
      openedAt := RestartOnTape(tape, first, before);
      var last := Next(tape, End(tape, first, before));
      hide Fold;
      NextStaged(tape, first, before, last, None);
      if last.TimeCut? {
        openedAt := End(tape, first, before).next;
      }
    }
  }

  /** The messages of journal lines. */
  function Messages(k: Codec, lines: seq<string>): seq<Message> {
    if lines == [] then []
    else
      var front := Messages(k, lines[..|lines| - 1]);
      match k.parse(lines[|lines| - 1])
      case Some(m) => front + [m]
      case None => front
  }

  /** A journal that replays gives a restarted session exactly the position it verified. */
  lemma {:induction false} ReplayIsFold(k: Codec, predecessor: Option<Trade>, start: int, lines: seq<string>)
    requires Replay(k, predecessor, Genesis(k, start), lines).Ok?
    ensures var folded := Fold(start, predecessor, k.mode, Messages(k, lines));
            folded.Ok? && SamePosition(folded.value, Replay(k, predecessor, Genesis(k, start), lines).value)
  {
    if lines == [] {
    } else {
      hide Step, SamePosition;
      var last := |lines| - 1;
      ReplayIsFold(k, predecessor, start, lines[..last]);
      StepIsAdvance(k, predecessor, Replay(k, predecessor, Genesis(k, start), lines[..last]).value,
                    Fold(start, predecessor, k.mode, Messages(k, lines[..last])).value, lines[last]);
      var log := Messages(k, lines);
      assert log[..|log| - 1] == Messages(k, lines[..last]);
    }
  }

  lemma StepIsAdvance(k: Codec, predecessor: Option<Trade>, v: Verified, w: Verified, line: string)
    requires SamePosition(w, v) && Step(k, predecessor, v, line).Ok?
    ensures k.parse(line).Some?
    ensures var next := Advance(w, predecessor, k.parse(line).value, k.mode);
            next.Ok? && SamePosition(next.value, Step(k, predecessor, v, line).value)
  {
  }

  // ---------- The buffer ----------

  /** Buffered prints lie ahead of the log. */
  ghost predicate Held(l: Ledger, pending: map<nat, Trade>, honest: bool, tape: seq<Trade>) {
    && (l.predecessor == None ==> pending == map[] && l.v.lastId == 0)
    && (forall id :: id in pending ==> pending[id].id == id && pending[id].Valid() && NextId(l) <= id)
    && (honest ==> forall id :: id in pending ==> OnTapePrint(tape, pending[id]))
  }

  lemma HeldOne(l: Ledger, pending: map<nat, Trade>, honest: bool, tape: seq<Trade>, id: nat)
    requires Held(l, pending, honest, tape) && id in pending
    ensures l.predecessor.Some? && pending[id].id == id && pending[id].Valid()
            && (honest ==> OnTapePrint(tape, pending[id]))
  {
  }

  lemma NoneBehind(l: Ledger, pending: map<nat, Trade>, honest: bool, tape: seq<Trade>, id: nat)
    requires Held(l, pending, honest, tape) && id in pending
    ensures NextId(l) <= id
  {
  }

  lemma HeldAfter(l: Ledger, l2: Ledger, pending: map<nat, Trade>, honest: bool, tape: seq<Trade>, id: nat)
    requires Held(l, pending, honest, tape) && id == NextId(l) && NextId(l2) == id + 1
    requires l.predecessor.Some? && l2.predecessor == l.predecessor
    ensures Held(l2, pending - {id}, honest, tape)
  {
  }

  lemma HeldSame(l: Ledger, l2: Ledger, pending: map<nat, Trade>, honest: bool, tape: seq<Trade>)
    requires Held(l, pending, honest, tape) && l2.v.lastId == l.v.lastId && l2.predecessor == l.predecessor
    ensures Held(l2, pending, honest, tape) && NextId(l2) == NextId(l)
  {
  }

  lemma SameGreatest(more: set<nat>, some: set<nat>, bound: nat)
    requires some <= more && some != {} && forall x :: x in more ==> x in some || x <= bound
    requires forall x :: x in some ==> bound < x
    ensures Greatest(more) == Greatest(some)
  {
  }

  /** How far the buffer reaches beyond the log. */
  function Ahead(l: Ledger, pending: map<nat, Trade>): int {
    if pending == map[] then 0 else Greatest(pending.Keys) + 1 - NextId(l)
  }

  /** One round brings the session nearer to a wait: the log comes closer to the end of the buffer, or else the next
      print is in hand now, or its minute is closer. */
  ghost predicate Nearer(l: Ledger, held: map<nat, Trade>, l2: Ledger, pending: map<nat, Trade>) {
    || (Ahead(l2, pending) < Ahead(l, held) && (0 <= Ahead(l2, pending) || 0 <= Ahead(l, held)))
    || (Ahead(l2, pending) == Ahead(l, held) && NextId(l) !in held && NextId(l2) in pending)
    || (Ahead(l2, pending) == Ahead(l, held) && NextId(l) in held && NextId(l2) in pending
        && held[NextId(l)].ts - l.v.cut >= 0
        && pending[NextId(l2)].ts - l2.v.cut < held[NextId(l)].ts - l.v.cut)
  }

  lemma AheadSame(l: Ledger, l2: Ledger, held: map<nat, Trade>, pending: map<nat, Trade>)
    requires NextId(l2) == NextId(l) && held != map[] && pending != map[]
    requires Greatest(pending.Keys) == Greatest(held.Keys)
    ensures Ahead(l2, pending) == Ahead(l, held)
  {
  }

  lemma GapCloses(l: Ledger, l2: Ledger, held: map<nat, Trade>, pending: map<nat, Trade>)
    requires NextId(l2) == NextId(l) && held != map[] && pending != map[]
    requires NextId(l) < Least(held.Keys) && NextId(l2) in pending
    requires Greatest(pending.Keys) == Greatest(held.Keys)
    ensures Nearer(l, held, l2, pending)
  {
    assert NextId(l) !in held.Keys;
  }

  lemma PrintLeaves(l: Ledger, l2: Ledger, pending: map<nat, Trade>, id: nat)
    requires id in pending && id == NextId(l) && NextId(l2) == id + 1
    ensures Nearer(l, pending, l2, pending - {id})
  {
    assert (pending - {id}).Keys == pending.Keys - {id};
  }

  // ---------- What a session answers ----------

  /** A print at or after the start: one the log has must be found there unchanged, unless it has expired; one in the
      buffer must be that one; any other needs room. */
  ghost function PutAnswer(l: Ledger, front: Segment, pending: map<nat, Trade>, fits: bool, t: Trade): Result<()> {
    if l.v.lastId != 0 && t.id <= l.v.lastId then
      if ExpiredId(front, t.id) || FindIn(PrintsIn(l.log), t.id) == Some(t) then Ok(()) else Err(21)
    else if t.id in pending then
      if pending[t.id] == t then Ok(()) else Err(21)
    else if fits then Ok(()) else Err(22)
  }

  /** The first answer with prints of so many reads, the empty page when each is empty, or the first failure. */
  ghost function Reads(venue: Venue, call: nat, from: nat, tries: nat): Result<seq<Trade>>
    decreases tries
  {
    if tries == 0 then Ok([])
    else
      var page := venue.history(call + 1, from);
      if page == Ok([]) then Reads(venue, call + 1, from, tries - 1) else page
  }

  /** How many of the reads were made. */
  ghost function ReadsMade(venue: Venue, call: nat, from: nat, tries: nat): (made: nat)
    ensures made <= tries
    decreases tries
  {
    if tries == 0 then 0
    else if venue.history(call + 1, from) == Ok([]) then 1 + ReadsMade(venue, call + 1, from, tries - 1) else 1
  }

  /** The first answer of so many requests that is not "unavailable", or the last one. */
  ghost function Rows(venue: Venue, call: nat, lo: int, hi: int, requests: nat): Result<seq<Kline>>
    decreases requests
  {
    if requests == 0 then Err(20)
    else
      var rows := venue.klines(call + 1, lo, hi);
      if rows == Err(20) then Rows(venue, call + 1, lo, hi, requests - 1) else rows
  }

  // ---------- Nothing is lost ----------

  /** The print is still buffered, or the log has it. */
  ghost predicate Taken(l: Ledger, pending: map<nat, Trade>, t: Trade) {
    (t.id in pending && pending[t.id] == t) || Tick(t) in l.log
  }

  /** From the one position to the other the log has only grown, and every print that was buffered still is, or is in
      the log. */
  ghost predicate Keeps(l: Ledger, held: map<nat, Trade>, later: Ledger, pending: map<nat, Trade>) {
    && l.log <= later.log && NextId(l) <= NextId(later)
    && forall id :: id in held ==> (id in pending && pending[id] == held[id]) || Tick(held[id]) in later.log
  }

  lemma KeepsOn(a: Ledger, held: map<nat, Trade>, b: Ledger, between: map<nat, Trade>, c: Ledger,
                pending: map<nat, Trade>)
    requires Keeps(a, held, b, between) && Keeps(b, between, c, pending)
    ensures Keeps(a, held, c, pending)
  {
    hide NextId;
    assert forall m :: m in b.log ==> m in c.log;
  }

  lemma TakenNow(l: Ledger, pending: map<nat, Trade>, t: Trade)
    ensures (t.id in pending && pending[t.id] == t) || Tick(t) in l.log ==> Taken(l, pending, t)
  {
  }

  lemma TakenStays(l: Ledger, held: map<nat, Trade>, later: Ledger, pending: map<nat, Trade>, t: Trade)
    requires Keeps(l, held, later, pending) && Taken(l, held, t)
    ensures Taken(later, pending, t)
  {
  }

  lemma KeepsMore(l: Ledger, held: map<nat, Trade>, pending: map<nat, Trade>)
    requires forall id :: id in held ==> id in pending && pending[id] == held[id]
    ensures Keeps(l, held, l, pending)
  {
  }

  lemma KeepsAnchored(l: Ledger, pending: map<nat, Trade>, predecessor: Option<Trade>)
    requires l.predecessor.None? || predecessor == l.predecessor
    ensures Keeps(l, pending, l.(predecessor := predecessor), pending)
  {
  }

  lemma KeepsStaged(l: Ledger, pending: map<nat, Trade>, m: Message, proof: Option<Bar>)
    requires Staged(l, m, proof).Ok? && !m.BarClose?
    ensures Keeps(l, pending, Staged(l, m, proof).value, pending)
  {
  }

  lemma KeepsEmitted(l: Ledger, pending: map<nat, Trade>, t: Trade)
    requires Staged(l, Tick(t), None).Ok? && (t.id in pending ==> pending[t.id] == t)
    ensures Keeps(l, pending, Staged(l, Tick(t), None).value, pending - {t.id})
  {
    var later := Staged(l, Tick(t), None).value;
    assert later.log[|l.log|] == Tick(t);
  }

  lemma FoundIsEmitted(log: seq<Message>, t: Trade)
    requires FindIn(PrintsIn(log), t.id) == Some(t)
    ensures Tick(t) in log
  {
    FoundIsPrint(PrintsIn(log), t);
    PrintIsEmitted(log, t);
  }

  lemma {:induction false} FoundIsPrint(prints: seq<Trade>, t: Trade)
    requires FindIn(prints, t.id) == Some(t)
    ensures t in prints
  {
    if prints[|prints| - 1] != t {
      FoundIsPrint(prints[..|prints| - 1], t);
    }
  }

  lemma {:induction false} PrintIsEmitted(log: seq<Message>, t: Trade)
    requires t in PrintsIn(log)
    ensures Tick(t) in log
  {
    if log[|log| - 1] != Tick(t) {
      PrintIsEmitted(log[..|log| - 1], t);
    }
  }

  /** From the one cut to the other every buffered candle of a minute since has closed its minute, or still waits for it
      to be over; minutes closed before stay closed. */
  ghost predicate KeepsCandles(cut: int, candles: map<int, Kline>, closes: map<int, Kline>, laterCut: int,
                               later: map<int, Kline>, laterCloses: map<int, Kline>) {
    && cut <= laterCut && (laterCut - cut) % MINUTE == 0
    && (forall minute :: minute in closes && minute < cut ==>
                           minute in laterCloses && laterCloses[minute] == closes[minute])
    && forall minute :: minute in candles && minute >= cut && (minute - cut) % MINUTE == 0 ==>
                          if minute < laterCut then minute in laterCloses && laterCloses[minute] == candles[minute]
                          else minute in later && later[minute] == candles[minute]
  }

  lemma KeepsCandlesOn(cut: int, candles: map<int, Kline>, closes: map<int, Kline>, nextCut: int,
                       next: map<int, Kline>, nextCloses: map<int, Kline>, laterCut: int, later: map<int, Kline>,
                       laterCloses: map<int, Kline>)
    requires KeepsCandles(cut, candles, closes, nextCut, next, nextCloses)
    requires KeepsCandles(nextCut, next, nextCloses, laterCut, later, laterCloses)
    ensures KeepsCandles(cut, candles, closes, laterCut, later, laterCloses)
  {
  }

  lemma KeepsMoreCandles(cut: int, candles: map<int, Kline>, closes: map<int, Kline>, later: map<int, Kline>)
    requires forall minute :: minute in candles ==> minute in later && later[minute] == candles[minute]
    ensures KeepsCandles(cut, candles, closes, cut, later, closes)
  {
  }

  /** A candle in hand for a minute since the cut is in hand later, or has closed its minute. */
  lemma CandleKept(cut: int, candles: map<int, Kline>, closes: map<int, Kline>, laterCut: int, later: map<int, Kline>,
                   laterCloses: map<int, Kline>, kline: Kline)
    requires KeepsCandles(cut, candles, closes, laterCut, later, laterCloses)
    requires cut <= kline.bar.ts && kline.bar.ts in candles && candles[kline.bar.ts].bar == kline.bar
    ensures var minute := kline.bar.ts;
            (minute - cut) % MINUTE == 0 ==>
              if minute < laterCut then minute in laterCloses && laterCloses[minute].bar == kline.bar
              else minute in later && later[minute].bar == kline.bar
  {
  }

  lemma KeepsClosed(cut: int, candles: map<int, Kline>, closes: map<int, Kline>)
    requires cut in candles
    ensures KeepsCandles(cut, candles, closes, cut + MINUTE, CandlesAfter(candles, cut),
                         closes[cut := candles[cut]])
  {
  }
}
