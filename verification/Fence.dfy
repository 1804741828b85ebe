/** Ticks proven by a next-print fence: the session that turns events and pages into the tape's message log. */
module Fence {
  import opened Feed
  import opened Ordered
  import opened JournalFormat
  import opened Retention
  import opened Tape
  import opened Aggregates
  import opened Ledgers
  import opened Cooperation

  /** A candle of a closed minute is the retained proof; without one, a print sum is the bar of the tape's prints. */
  ghost predicate Confirms(l: Ledger, kline: Kline, tape: seq<Trade>, first: nat, sums: bool) {
    match FirstProof(l.proofs, kline.bar.ts)
    case Some(proof) => proof == kline.bar
    case None => sums ==> first <= |tape| && IsBarOf(kline.bar, MinuteOf(tape[first..], kline.bar.ts))
  }

  /** The venue's answer becomes the start predecessor exactly when it is a valid print before the start and nothing was
      emitted. */
  ghost predicate Anchors(answer: Result<Option<Trade>>, before: Ledger, after: Ledger, r: Result<()>) {
    match answer
    case Err(code) => r == Err(code) && after == before
    case Ok(None) => r == Err(20) && after == before
    case Ok(Some(t)) =>
      if t.Valid() && before.v.index == 0 && before.log == [] && t.ts < before.start
      then r.Ok? && after == before.(predecessor := Some(t))
      else r == Err(if t.Valid() then 20 else 23) && after == before
  }

  class FenceSession {
    const venue: Venue
    const host: Host
    const limits: Limits
    ghost const tape: seq<Trade>
    ghost const first: nat
    ghost const honest: bool    // whether the venue serves `tape`; otherwise its answers are arbitrary
    ghost const truth: int -> Bar   // each minute's candle, when the venue tells the truth
    ghost const began: int          // the open minute when the session began
    var ledger: Ledger
    var front: Segment   // the first retained segment
    var aggregate: Aggregate
    var pending: map<nat, Trade>
    var pendingBytes: nat
    var candles: map<int, Kline>
    var watermark: int
    var newest: int
    var forwardWatermark: int
    var calls: nat
    ghost var openedAt: nat            // the tape index of the open minute's first print
    ghost var closes: map<int, Kline>  // the candle each minute closed with

    /** What a reader of the log may rely on, whatever stopped the session. */
    ghost predicate Sound()
      reads this
    {
      honest ==>
        && Serves(venue, tape, first)
        && OnTape(tape, first, ledger) && Closed(tape, first, ledger, closes, venue.candleIsPrintSum)
    }

    ghost predicate Valid()
      reads this
    {
      && Sound() && (honest ==> OpenMinute(tape, first, ledger, openedAt, aggregate))
      && Held(ledger, pending, honest, tape)
        && pendingBytes == TotalBytes(limits.bytesOf, pending) <= limits.maxQueueBytes
      && Ended(venue, began, ledger.v.cut, candles, watermark)
      && Filed(candles)
    }

    /** Nothing stands in the way: the venue answers truly and in full, the buffer has room and the host goes on. */
    ghost predicate Willing()
      reads `ledger, `candles, `newest
    {
      && honest && Cooperates(venue, host, limits, tape, first, ledger.start, truth)
      && Truthful(ledger, candles, newest, tape, truth)
    }

    constructor (venue: Venue, host: Host, limits: Limits, ledger: Ledger, front: Segment, aggregate: Aggregate,
                 ghost tape: seq<Trade>, ghost first: nat, ghost honest: bool, ghost truth: int -> Bar,
                 ghost openedAt: nat, ghost closes: map<int, Kline>)
      requires ledger.predecessor == None ==> ledger.v.lastId == 0
      requires honest ==> Serves(venue, tape, first) && OnTape(tape, first, ledger)
                          && Closed(tape, first, ledger, closes, venue.candleIsPrintSum)
                          && OpenMinute(tape, first, ledger, openedAt, aggregate)
      ensures Valid() && this.ledger == ledger && this.tape == tape && this.first == first && this.honest == honest
      ensures (honest && Cooperates(venue, host, limits, tape, first, ledger.start, truth)
               && Truthful(ledger, map[], -1, tape, truth)) ==> Willing()
    {
      this.venue, this.host, this.limits := venue, host, limits;
      this.ledger, this.front, this.aggregate := ledger, front, aggregate;
      this.tape, this.first, this.honest, this.truth := tape, first, honest, truth;
      this.openedAt, this.closes, began := openedAt, closes, ledger.v.cut;
      pending, pendingBytes, candles := map[], 0, map[];
      watermark, newest, forwardWatermark, calls := -1, -1, -1, 0;
    }

    /** Stages one message; a stop or a failed publication may end the session before or after it. */
    method Emit(m: Message, proof: Option<Bar>) returns (r: Result<()>)
      requires proof.Some? ==> m.TimeCut?
      modifies this`ledger, this`front, this`calls
      ensures ledger == old(ledger)
              || (Staged(old(ledger), m, proof).Ok? && ledger == Staged(old(ledger), m, proof).value)
      ensures r.Ok? ==> Staged(old(ledger), m, proof).Ok? && ledger == Staged(old(ledger), m, proof).value
      ensures Staged(old(ledger), m, proof).Ok? && !host.stops(old(calls)) && !host.publishFails(old(calls)) ==> r.Ok?
      ensures r.Ok? ==> !host.stops(old(calls)) && !host.publishFails(old(calls)) && front == host.front(old(calls))
      ensures calls == old(calls) + 1
    {
      r, ledger, front := Publish(host, calls, ledger, front, m, proof);
      calls := calls + 1;
    }

    /** Takes the start predecessor, the last print strictly before the start minute. */
    method TakePredecessor(predecessor: Trade) returns (r: Result<()>)
      requires Valid() && ledger.predecessor == None && (honest ==> predecessor == tape[first - 1])
      modifies this`ledger
      ensures Valid()
      ensures r.Ok? ==> ledger == old(ledger).(predecessor := Some(predecessor))
      ensures r.Err? ==> ledger == old(ledger)
      ensures r == if !predecessor.Valid() then Err(23)
                   else if old(ledger).v.index != 0 || old(ledger).log != [] || predecessor.ts >= old(ledger).start
                     then Err(20) else Ok(())
      ensures old(Willing()) && predecessor.Valid() ==> r.Ok? && Willing()
    {
      hide OpenMinute, Closed, Serves, Cooperates, Canonical, Reach;
      if !predecessor.Valid() {
        return Err(23);
      }
      if ledger.v.index != 0 || ledger.log != [] || predecessor.ts >= ledger.start {
        return Err(20);
      }
      if honest {
        AnchorStaged(tape, first, ledger, openedAt, aggregate);
        SameLog(tape, first, ledger, Some(predecessor), closes, venue.candleIsPrintSum);
      }
      ledger := ledger.(predecessor := Some(predecessor));
      return Ok(());
    }

    method Anchor() returns (r: Result<()>)
      requires Valid()
      modifies this`ledger, this`calls
      ensures Valid()
      ensures r.Ok? ==> ledger.predecessor.Some?
      ensures old(Willing()) ==> r.Ok? && Willing()
      ensures if old(ledger).predecessor.Some? then r.Ok? && ledger == old(ledger) && calls == old(calls)
              else calls == old(calls) + 1 && Anchors(venue.predecessor(calls), old(ledger), ledger, r)
      ensures r.Ok? ==> ledger == old(ledger).(predecessor := ledger.predecessor)
                        && Keeps(old(ledger), pending, ledger, pending)
    {
      hide OnTape, OpenMinute, Closed, Cooperates, Truthful;
      if honest && Willing() {
        PredecessorAnswers(venue, host, limits, tape, first, ledger.start, truth, calls + 1);
      }
      if ledger.predecessor.Some? {
        return Ok(());
      }
      calls := calls + 1;
      var answer :- venue.predecessor(calls);
      if answer.None? {
        return Err(20);
      }
      r := TakePredecessor(answer.value);
    }

    /** Buffers a print ahead of the log; a repeated print must be the one already held or emitted. */
    method Put(trade: Trade, healed: bool) returns (r: Result<()>)
      requires Valid() && ledger.predecessor.Some? && (honest ==> OnTapePrint(tape, trade))
      modifies this`pending, this`pendingBytes
      ensures Valid()
      ensures pending == old(pending)
              || (r.Ok? && trade.id !in old(pending) && pending == old(pending)[trade.id := trade])
      ensures Keeps(ledger, old(pending), ledger, pending)
      ensures r.Ok? && (healed || trade.ts >= ledger.start) ==>
                && (Taken(ledger, pending, trade) || (!honest && ExpiredId(front, trade.id)))
                && (NextId(ledger) <= trade.id ==> trade.id in pending && pending[trade.id] == trade)
      ensures r == if !trade.Valid() then Err(23)
                   else if trade.ts < ledger.start then (if healed then Err(23) else Ok(()))
                   else if trade.id <= ledger.predecessor.value.id
                     then Err(if trade.id == ledger.predecessor.value.id then 21 else 23)
                   else PutAnswer(ledger, front, old(pending),
                                  TotalBytes(limits.bytesOf, old(pending)) + limits.bytesOf(trade)
                                    <= limits.maxQueueBytes, trade)
      ensures honest && r.Err? && (healed ==> NextId(ledger) <= trade.id) ==> r.code == 22
      ensures Willing() && (healed ==> NextId(ledger) <= trade.id) ==> r.Ok?
    {
      hide OnTape, OpenMinute, Closed, Serves, OnTapePrint, Run, FindIn, PrintsIn, Cooperates, Truthful, Keeps,
           ExpiredId;
      KeepsMore(ledger, pending, pending);
      if honest {
        AheadOfStart(tape, first, ledger, trade);
      }
      if !trade.Valid() {
        return Err(23);
      }
      if trade.ts < ledger.start {
        return if healed then Err(23) else Ok(());
      }
      if trade.id <= ledger.predecessor.value.id {
        return Err(if trade.id == ledger.predecessor.value.id then 21 else 23);
      }
      if ledger.v.lastId != 0 && trade.id <= ledger.v.lastId {
        if honest {
          DuplicateAgrees(tape, first, ledger, trade);
        }
        var emitted := FindIn(PrintsIn(ledger.log), trade.id);
        if emitted == Some(trade) {
          FoundIsEmitted(ledger.log, trade);
        }
        if ExpiredId(front, trade.id) || emitted == Some(trade) {
          return Ok(());
        }
        return Err(21);
      }
      if trade.id in pending {
        if honest {
          SamePrint(tape, pending[trade.id], trade);
        }
        return if pending[trade.id] == trade then Ok(()) else Err(21);
      }
      var bytes := limits.bytesOf(trade);
      if Willing() {
        TapeFacts(venue, host, limits, tape, first, ledger.start, truth);
        RoomForOne(limits.bytesOf, tape, pending, trade);
      }
      var used := if pendingBytes < limits.maxQueueBytes then pendingBytes else limits.maxQueueBytes;
      if bytes > limits.maxQueueBytes - used {
        return Err(22);
      }
      TotalBytesInsert(limits.bytesOf, pending, trade.id, trade);
      KeepsMore(ledger, pending, pending[trade.id := trade]);
      pendingBytes := pendingBytes + bytes;
      pending := pending[trade.id := trade];
      return Ok(());
    }

    lemma StillWilling()
      requires honest && Cooperates(venue, host, limits, tape, first, ledger.start, truth)
      requires Truthful(ledger, candles, newest, tape, truth)
      ensures Willing()
    {
    }

    /** A willing host takes the next print. */
    lemma WillingTick(trade: Trade)
      requires Valid() && Willing() && trade.id in pending && pending[trade.id] == trade
      requires Addressable(ledger) && trade.id == NextId(ledger) && trade.ts < ledger.v.cut + MINUTE
      ensures ledger.v.lastTickTs <= trade.ts && ledger.v.cut <= trade.ts && Staged(ledger, Tick(trade), None).Ok?
      ensures !host.stops(calls) && !host.publishFails(calls)
      ensures var next := Staged(ledger, Tick(trade), None).value;
              honest && Cooperates(venue, host, limits, tape, first, next.start, truth)
                && Truthful(next, candles, newest, tape, truth)
    {
      hide OnTape, OpenMinute, Closed, Serves, Held, Ended, Filed, TotalBytes, OnTapePrint, Cooperates, Truthful;
      HeldOne(ledger, pending, honest, tape, trade.id);
      TickAccepted(tape, first, ledger, trade);
      StagedIsTrue(ledger, Tick(trade), None, candles, newest, tape, truth);
      HostGoesOn(venue, host, limits, tape, first, ledger.start, truth, calls);
      Moves(ledger, Tick(trade), None);
    }

    /** What the next print does to the ledger, if the journal takes it. */
    lemma TickMoves(trade: Trade)
      requires Valid() && trade.id in pending && pending[trade.id] == trade
      requires Addressable(ledger) && trade.id == NextId(ledger) && Staged(ledger, Tick(trade), None).Ok?
      ensures var next := Staged(ledger, Tick(trade), None).value;
              && next.start == ledger.start && next.predecessor == ledger.predecessor && NextId(next) == trade.id + 1
              && next.v.cut == ledger.v.cut
              && (honest ==> Add(aggregate, trade).Ok?
                             && OnTape(tape, first, next)
                             && OpenMinute(tape, first, next, openedAt, Add(aggregate, trade).value)
                             && Closed(tape, first, next, closes, venue.candleIsPrintSum))
    {
      hide OnTape, OpenMinute, Closed, Serves, Held, Ended, Filed, TotalBytes, OnTapePrint, Add, Staged, Addressable,
           NextId;
      HeldOne(ledger, pending, honest, tape, trade.id);
      Moves(ledger, Tick(trade), None);
      if honest {
        TickEmitted(tape, first, ledger, openedAt, aggregate, trade, closes, venue.candleIsPrintSum);
      }
    }

    /** A true candle of a closed minute agrees with the minute's proof and with its prints. */
    lemma WillingCandle(kline: Kline)
      requires Valid() && Willing() && kline.bar == truth(kline.bar.ts) && kline.bar.ts % MINUTE == 0
      ensures FirstProof(ledger.proofs, kline.bar.ts).Some? ==>
              FirstProof(ledger.proofs, kline.bar.ts).value == kline.bar
      ensures ledger.start <= kline.bar.ts < ledger.v.cut && venue.candleIsPrintSum ==>
                && Run(MinuteOf(PrintsIn(ledger.log), kline.bar.ts))
                && IsBarOf(kline.bar, MinuteOf(PrintsIn(ledger.log), kline.bar.ts))
      ensures kline.bar.ts in candles ==> candles[kline.bar.ts].bar == kline.bar
      ensures honest && Cooperates(venue, host, limits, tape, first, ledger.start, truth)
      ensures Truthful(ledger, candles, newest, tape, truth)
      ensures Truthful(ledger, candles[kline.bar.ts := kline], newest, tape, truth)
    {
      hide OnTape, OpenMinute, Closed, Serves, Held, Ended, Filed, TotalBytes, Cooperates, Run, IsBarOf, PrintsIn,
           Between;
      FirstProofIsTrue(ledger.proofs, kline.bar.ts, truth);
      CandleIsTrue(ledger, candles, newest, tape, truth, kline);
      if ledger.start <= kline.bar.ts < ledger.v.cut {
        TapeFacts(venue, host, limits, tape, first, ledger.start, truth);
        AlignedCut(tape, first, ledger);
        TrueBar(venue, host, limits, tape, first, ledger.start, truth, kline.bar.ts);
        ClosedMinuteInLog(tape, first, ledger, kline.bar.ts);
      }
    }

    lemma WillingPrint(trade: Trade)
      requires Valid() && Willing() && (honest ==> OnTapePrint(tape, trade))
      ensures honest && Cooperates(venue, host, limits, tape, first, ledger.start, truth)
      ensures Truthful(ledger, candles, newest, tape, truth)
      ensures Truthful(ledger, candles, if newest < trade.ts then trade.ts else newest, tape, truth)
    {
      hide OnTape, OpenMinute, Closed, Serves, Held, Ended, Filed, TotalBytes, Cooperates;
      TapeFacts(venue, host, limits, tape, first, ledger.start, truth);
      FirstIsEarliest(tape, trade.id - tape[0].id);
    }

    /** What the `time` line behind the fence does to the ledger, if the journal takes it. */
    lemma CutMoves(fence: Trade) returns (cutAt: nat)
      requires Valid() && Addressable(ledger) && fence.id == NextId(ledger) && fence.id in pending
      requires pending[fence.id] == fence && fence.ts >= ledger.v.cut + MINUTE && ledger.v.cut in candles
      requires venue.candleIsPrintSum ==> ReconcilesFenced(aggregate, candles[ledger.v.cut])
      ensures var candle := candles[ledger.v.cut];
              var staged := Staged(ledger, TimeCut(ledger.v.cut + MINUTE), Some(candle.bar));
              && (honest ==> Closed(tape, first, ledger, closes[ledger.v.cut := candle], venue.candleIsPrintSum))
              && (staged.Ok? ==>
                    && staged.value.start == ledger.start && staged.value.predecessor == ledger.predecessor
                    && staged.value.v.lastId == ledger.v.lastId && staged.value.v.cut == ledger.v.cut + MINUTE)
              && (staged.Ok? && honest ==>
                    && OnTape(tape, first, staged.value) && OpenMinute(tape, first, staged.value, cutAt, EMPTY)
                    && Closed(tape, first, staged.value, closes[ledger.v.cut := candle], venue.candleIsPrintSum))
    {
      hide OnTape, OpenMinute, Closed, Serves, Held, Ended, Filed, TotalBytes, OnTapePrint, Staged, Addressable, NextId,
           ReconcilesFenced;
      var candle, line := candles[ledger.v.cut], TimeCut(ledger.v.cut + MINUTE);
      HeldOne(ledger, pending, honest, tape, fence.id);
      cutAt := openedAt;
      if honest {
        cutAt := CutEmitted(tape, first, ledger, openedAt, aggregate, fence, closes, candle, venue.candleIsPrintSum);
      }
      if Staged(ledger, line, Some(candle.bar)).Ok? {
        Moves(ledger, line, Some(candle.bar));
      }
    }

    lemma WillingChain()
      requires Valid() && Willing() && ledger.predecessor.Some?
      ensures Addressable(ledger)
    {
      hide OnTape, OpenMinute, Closed, Serves, Held, Ended, Filed, TotalBytes, Cooperates, Truthful;
      TapeFacts(venue, host, limits, tape, first, ledger.start, truth);
      ChainGoesOn(tape, first, ledger);
    }

    /** It takes the candle behind the fence as well. */
    lemma WillingCut(fence: Trade)
      requires Valid() && Willing() && fence.id in pending && pending[fence.id] == fence && ledger.v.cut in candles
      requires Addressable(ledger) && fence.id == NextId(ledger) && fence.ts >= ledger.v.cut + MINUTE
      ensures var candle, line := candles[ledger.v.cut], TimeCut(ledger.v.cut + MINUTE);
              && (venue.candleIsPrintSum ==> ReconcilesFenced(aggregate, candle))
              && Staged(ledger, line, Some(candle.bar)).Ok?
              && var next := Staged(ledger, line, Some(candle.bar)).value;
              && honest && Cooperates(venue, host, limits, tape, first, next.start, truth)
              && Truthful(next, candles, newest, tape, truth)
      ensures !host.stops(calls) && !host.publishFails(calls)
    {
      hide OnTape, OpenMinute, Closed, Serves, Held, Ended, Filed, TotalBytes, OnTapePrint, Cooperates, Truthful,
           ReconcilesFenced, Staged;
      HeldOne(ledger, pending, honest, tape, fence.id);
      CandleCloses(venue, host, limits, tape, first, truth, ledger, openedAt, aggregate, fence, candles, newest);
      HostGoesOn(venue, host, limits, tape, first, ledger.start, truth, calls);
    }

    /** Emits the next print of the open minute and forgets its buffered copy. */
    method EmitTrade(trade: Trade) returns (r: Result<()>)
      requires Valid() && trade.id in pending && pending[trade.id] == trade
      modifies this`ledger, this`front, this`calls, this`aggregate, this`pending, this`pendingBytes
      ensures Sound()
      ensures r.Ok? ==> Valid() && pending == old(pending) - {trade.id}
                        && trade.id == NextId(old(ledger)) && NextId(ledger) == trade.id + 1
                        && ledger.v.cut == old(ledger).v.cut && Keeps(old(ledger), old(pending), ledger, pending)
      ensures r.Err? ==> pending == old(pending) && pendingBytes == old(pendingBytes)
      ensures trade.ts < old(ledger).v.lastTickTs ==> r == Err(23) && ledger == old(ledger)
      ensures (old(ledger).v.lastTickTs <= trade.ts
               && (!Addressable(old(ledger)) || trade.id != NextId(old(ledger)) || trade.ts < old(ledger).v.cut
                   || trade.ts >= old(ledger).v.cut + MINUTE)) ==> r == Err(20) && ledger == old(ledger)
      ensures (old(Willing()) && Addressable(old(ledger)) && trade.id == NextId(old(ledger))
               && trade.ts < old(ledger).v.cut + MINUTE) ==> r.Ok? && Willing()
    {
      hide OnTape, OpenMinute, Closed, Serves, Run, Summarizes, Held, Ended, Filed, TotalBytes, OnTapePrint, Cooperates,
           Truthful, Willing, Staged, Add, Addressable, NextId, Keeps;
      HeldOne(ledger, pending, honest, tape, trade.id);
      ghost var willing := Willing() && Addressable(ledger) && trade.id == NextId(ledger)
        && trade.ts < ledger.v.cut + MINUTE;
      if willing {
        WillingTick(trade);
      }
      if trade.ts < ledger.v.lastTickTs {
        return Err(23);
      }
      if !Addressable(ledger) || trade.id != NextId(ledger) || trade.ts < ledger.v.cut
        || trade.ts >= ledger.v.cut + MINUTE {
        return Err(20);
      }
      if Staged(ledger, Tick(trade), None).Ok? {
        TickMoves(trade);
        KeepsEmitted(ledger, pending, trade);
      }
      aggregate :- Add(aggregate, trade);
      r := Emit(Tick(trade), None);
      if r.Err? {
        return;
      }
      TotalBytesRemove(limits.bytesOf, pending, trade.id);
      HeldAfter(old(ledger), ledger, pending, honest, tape, trade.id);
      if willing {
        StillWilling();
      }
      pendingBytes := pendingBytes - limits.bytesOf(trade);
      pending := pending - {trade.id};
    }

    /** A gap that starts before the venue's history window cannot be healed. */
    predicate WithinRetention()
      reads this
    {
      var last := if ledger.v.lastTickTs >= 0 then ledger.v.lastTickTs
                  else if ledger.predecessor.Some? then ledger.predecessor.value.ts else -1;
      !(venue.retentionMs != 0 && last >= 0 && newest > last && newest - last > venue.retentionMs)
    }

    /** A gap can be healed exactly while the last emitted print, or the predecessor, is inside the window. */
    lemma RetentionIs(last: int)
      requires 0 <= last
      requires last == ledger.v.lastTickTs
               || (ledger.v.lastTickTs < 0 && ledger.predecessor.Some? && last == ledger.predecessor.value.ts)
      ensures WithinRetention() <==> venue.retentionMs == 0 || newest - last <= venue.retentionMs
    {
    }

    /** The prints from the next ID on; an empty answer counts only after the re-reads. */
    method Page(patient: bool) returns (r: Result<seq<Trade>>)
      requires Valid()
      modifies this`calls
      ensures !WithinRetention() || !Addressable(ledger) ==> r == Err(20) && calls == old(calls)
      ensures WithinRetention() && Addressable(ledger) ==>
                var answer := Reads(venue, old(calls), NextId(ledger), if patient then 4 else 1);
                && calls == old(calls) + ReadsMade(venue, old(calls), NextId(ledger), if patient then 4 else 1)
                && r == if answer.Ok? && answer.value != [] && answer.value[0].id != NextId(ledger) then Err(20)
                        else answer
      ensures r.Ok? && r.value != [] ==> Addressable(ledger) && r.value[0].id == NextId(ledger)
      ensures r.Ok? && honest ==> IsPage(tape, NextId(ledger), r.value)
      ensures Willing() && ledger.predecessor.Some? ==>
                r.Ok? && Addressable(ledger) && (Shows(tape, NextId(ledger)) ==> r.value != [])
    {
      hide OnTape, OpenMinute, Closed, Held, Ended, Filed, TotalBytes, OnTapePrint, Cooperates, IsPage, Reads,
           ReadsMade;
      if honest {
        ReadsArePages(venue, tape, first, calls, NextId(ledger), if patient then 4 else 1);
      }
      if Willing() && ledger.predecessor.Some? {
        TapeFacts(venue, host, limits, tape, first, ledger.start, truth);
        ChainGoesOn(tape, first, ledger);
        WindowReaches(tape, first, ledger);
        ReadsAnswer(venue, host, limits, tape, first, ledger.start, truth, calls, NextId(ledger),
                    if patient then 4 else 1);
      }
      hide Truthful;
      if !WithinRetention() || !Addressable(ledger) {
        return Err(20);
      }
      var prints :- ReadPage(if patient then 4 else 1);
      if honest {
        PageStarts(tape, NextId(ledger), prints);
      }
      return if prints == [] || prints[0].id == NextId(ledger) then Ok(prints) else Err(20);
    }

    /** Reads until a page is not empty, so often at most. */
    method ReadPage(tries: nat) returns (r: Result<seq<Trade>>)
      modifies this`calls
      ensures r == Reads(venue, old(calls), NextId(ledger), tries)
      ensures calls == old(calls) + ReadsMade(venue, old(calls), NextId(ledger), tries)
    {
      var attempt := 0;
      while attempt < tries
        invariant attempt <= tries && calls == old(calls) + attempt
        invariant Reads(venue, old(calls), NextId(ledger), tries) == Reads(venue, calls, NextId(ledger),
                  tries - attempt)
        invariant ReadsMade(venue, old(calls), NextId(ledger), tries)
               == attempt + ReadsMade(venue, calls, NextId(ledger), tries - attempt)
      {
        calls := calls + 1;
        var prints :- venue.history(calls, NextId(ledger));
        if prints != [] {
          return Ok(prints);
        }
        attempt := attempt + 1;
      }
      return Ok([]);
    }

    /** Fetches the prints missing before the first buffered one. */
    method Heal() returns (r: Result<()>)
      requires Valid() && pending != map[] && NextId(ledger) < Least(pending.Keys)
      modifies this`calls, this`pending, this`pendingBytes
      ensures Valid()
      ensures r.Ok? ==> NextId(ledger) in pending && Greatest(pending.Keys) == Greatest(old(pending).Keys)
      ensures forall id :: id in old(pending) ==> id in pending && pending[id] == old(pending)[id]
      ensures Willing() ==> r.Ok?
      ensures old(Reads(venue, calls, NextId(ledger), 4)) == Ok([]) ==> r == Err(20)
      ensures r == Err(20) ==>
                var answer := old(Reads(venue, calls, NextId(ledger), 4));
                !WithinRetention() || !Addressable(ledger) || answer == Ok([]) || answer == Err(20)
                || (answer.Ok? && answer.value[0].id != NextId(ledger))
    {
      hide OnTape, OpenMinute, Closed, Held, Ended, Filed, TotalBytes, Serves, Cooperates, Truthful, Reads, ReadsMade;
      var target := Least(pending.Keys) - 1;
      HeldOne(ledger, pending, honest, tape, target + 1);
      if Willing() {
        TapeFacts(venue, host, limits, tape, first, ledger.start, truth);
        GapIsShown(tape, first, ledger, pending[target + 1]);
      }
      var prints :- Page(true);
      if prints == [] {
        return Err(20);
      }
      var i := 0;
      while i < |prints| && prints[i].id <= target
        invariant Valid() && i <= |prints|
        invariant i > 0 ==> NextId(ledger) in pending
        invariant forall id :: id in old(pending) ==> id in pending && pending[id] == old(pending)[id]
        invariant forall id :: id in pending ==> id in old(pending) || id <= target
      {
        var _ :- Put(prints[i], true);
        i := i + 1;
      }
      SameGreatest(pending.Keys, old(pending).Keys, target);
      return Ok(());
    }

    /** Looks once per confirmed minute for prints beyond the chain; a quiet start waits. */
    method Forward() returns (r: Result<bool>)
      requires Valid() && pending == map[] && ledger.v.cut + MINUTE < watermark
      modifies this`calls, this`ledger, this`pending, this`pendingBytes, this`forwardWatermark
      ensures old(forwardWatermark) >= watermark ==> r == Ok(false) && calls == old(calls) && ledger == old(ledger)
      ensures old(forwardWatermark) < watermark ==> forwardWatermark == watermark
      ensures calls <= old(calls) + 2
      ensures Valid() && ledger.v == old(ledger).v && Keeps(old(ledger), old(pending), ledger, pending)
      ensures r == Ok(true) ==> NextId(ledger) in pending
      ensures r == Ok(true) ==> old(forwardWatermark) < watermark == forwardWatermark
      ensures r == Ok(false) ==> pending == map[] && forwardWatermark >= watermark
      ensures old(Willing()) ==> r.Ok? && Willing()
    {
      hide OnTape, OpenMinute, Closed, Held, Ended, Filed, TotalBytes, Cooperates, Truthful, IsPage, OnTapePrint, Reads,
           ReadsMade, Keeps, Willing, NextId, Addressable;
      KeepsMore(ledger, pending, pending);
      if forwardWatermark >= watermark {
        return Ok(false);
      }
      forwardWatermark := watermark;
      var ready :- AnchorIfReady();
      if !ready {
        return Ok(false);
      }
      ghost var anchored := ledger;
      var prints :- Page(false);
      var put := PutAll(prints);
      KeepsOn(old(ledger), old(pending), anchored, old(pending), ledger, pending);
      return if put.Ok? then Ok(prints != []) else Err(put.code);
    }

    /** Takes the start predecessor once the venue names it. */
    method AnchorIfReady() returns (r: Result<bool>)
      requires Valid()
      modifies this`calls, this`ledger
      ensures Valid() && ledger == old(ledger).(predecessor := ledger.predecessor)
      ensures Keeps(old(ledger), pending, ledger, pending)
      ensures r == Ok(true) ==> ledger.predecessor.Some?
      ensures if old(ledger).predecessor.Some? then r == Ok(true) && ledger == old(ledger) && calls == old(calls)
              else
                && calls == old(calls) + 1 && (venue.predecessor(calls) == Ok(None) ==> r == Ok(false))
                && (venue.predecessor(calls) != Ok(None) ==>
                      Anchors(venue.predecessor(calls), old(ledger), ledger, if r.Ok? then Ok(()) else Err(r.code)))
      ensures old(Willing()) ==> r == Ok(true) && Willing()
    {
      hide OnTape, OpenMinute, Closed, Held, Ended, Filed, TotalBytes, Cooperates, Truthful, Keeps, Serves, OnTapePrint;
      KeepsAnchored(ledger, pending, ledger.predecessor);
      if ledger.predecessor.Some? {
        return Ok(true);
      }
      calls := calls + 1;
      if Willing() {
        PredecessorAnswers(venue, host, limits, tape, first, ledger.start, truth, calls);
      }
      if honest {
        HonestPredecessor(calls);
      }
      var answer :- venue.predecessor(calls);
      if answer.None? {
        return Ok(false);
      }
      KeepsAnchored(ledger, pending, answer);
      var taken := TakePredecessor(answer.value);
      return if taken.Ok? then Ok(true) else Err(taken.code);
    }

    lemma HonestPredecessor(call: nat)
      requires Sound() && honest
      ensures 0 < first <= |tape|
      ensures venue.predecessor(call).Ok? && venue.predecessor(call).value.Some? ==>
                venue.predecessor(call).value.value == tape[first - 1]
    {
    }

    /** Buffers a page. */
    method PutAll(prints: seq<Trade>) returns (r: Result<()>)
      requires Valid() && ledger.predecessor.Some? && (honest ==> IsPage(tape, NextId(ledger), prints))
      modifies this`pending, this`pendingBytes
      ensures Valid() && (prints == [] ==> pending == old(pending)) && Keeps(ledger, old(pending), ledger, pending)
      ensures r.Ok? ==> forall i :: 0 <= i < |prints| && NextId(ledger) <= prints[i].id ==> prints[i].id in pending
      ensures Willing() ==> r.Ok?
    {
      hide OnTape, OpenMinute, Closed, Held, Ended, Filed, TotalBytes, Cooperates, Truthful, Serves, NextId, Keeps;
      KeepsMore(ledger, pending, pending);
      var i := 0;
      while i < |prints|
        invariant Valid() && i <= |prints| && (prints == [] ==> pending == old(pending))
        invariant Keeps(ledger, old(pending), ledger, pending)
        invariant forall j :: 0 <= j < i && NextId(ledger) <= prints[j].id ==> prints[j].id in pending
      {
        ghost var held := pending;
        r := Put(prints[i], true);
        KeepsOn(ledger, old(pending), ledger, held, ledger, pending);
        if r.Err? {
          return;
        }
        i := i + 1;
      }
      return Ok(());
    }

    /** Asks for a range of closed candles, three times at most while they are unavailable. */
    method ReadRows(lo: int, hi: int) returns (r: Result<seq<Kline>>)
      modifies this`calls
      ensures r == Rows(venue, old(calls), lo, hi, 3) && (r.Ok? ==> r == venue.klines(calls, lo, hi))
      ensures old(calls) < calls <= old(calls) + 3
    {
      var attempt := 0;
      r := Err(20);
      while attempt < 3 && r == Err(20)
        invariant attempt <= 3 && calls == old(calls) + attempt && (attempt == 0 ==> r == Err(20))
        invariant attempt > 0 ==> r == venue.klines(calls, lo, hi)
        invariant Rows(venue, old(calls), lo, hi, 3)
               == if r == Err(20) then Rows(venue, calls, lo, hi, 3 - attempt) else r
      {
        calls := calls + 1;
        r := venue.klines(calls, lo, hi);
        attempt := attempt + 1;
      }
    }

    /** Reads closed candles from the open minute up to the watermark; the first answer for a minute stands. */
    method FetchCandles() returns (r: Result<()>)
      requires Valid()
      modifies this`calls, this`candles
      ensures Valid()
      ensures forall minute :: minute in old(candles) ==> minute in candles && candles[minute] == old(candles)[minute]
      ensures r.Ok? ==> ledger.v.cut in candles
      ensures var minute := ledger.v.cut;
              var rows := Rows(venue, old(calls), minute,
                               if watermark < minute + 100 * MINUTE then watermark else minute + 100 * MINUTE, 3);
              && (rows.Err? ==> r == Err(rows.code) && candles == old(candles))
              && (rows.Ok? ==>
                    && r == (if minute in candles then Ok(()) else Err(20))
                    && candles.Keys == old(candles).Keys + (set i | 0 <= i < |rows.value| :: rows.value[i].bar.ts))
      ensures old(Willing()) && watermark > ledger.v.cut ==> r.Ok? && Willing()
    {
      hide OnTape, OpenMinute, Closed, Held, Ended, Filed, TotalBytes, OnTapePrint, Serves, Cooperates, Truthful, Rows;
      var minute := ledger.v.cut;
      ghost var willing := Willing() && watermark > minute;
      var hi := if watermark < minute + 100 * MINUTE then watermark else minute + 100 * MINUTE;
      if willing {
        RowsAnswer(venue, host, limits, tape, first, ledger.start, truth, calls, minute, hi, 3);
      }
      var rows :- ReadRows(minute, hi);
      var i := 0;
      while i < |rows|
        modifies this`candles
        invariant Valid() && i <= |rows|
        invariant venue.klines(calls, minute, hi) == Ok(rows)
        invariant forall minute :: minute in old(candles) ==>
                  minute in candles && candles[minute] == old(candles)[minute]
        invariant candles.Keys == old(candles).Keys + (set k | 0 <= k < i :: rows[k].bar.ts)
        invariant forall k :: 0 <= k < i ==> rows[k].bar.ts in candles
        invariant willing ==> Willing()
      {
        if rows[i].bar.ts !in candles {
          if willing {
            CandleIsTrue(ledger, candles, newest, tape, truth, rows[i]);
          }
          FiledMore(candles, rows[i]);
          RowEnded(venue, began, ledger.v.cut, candles, watermark, calls, minute, hi, i);
          candles := candles[rows[i].bar.ts := rows[i]];
        }
        i := i + 1;
      }
      return if minute in candles then Ok(()) else Err(20);
    }

    /** Closes the open minute with its candle, behind the next print of a later minute. */
    method CutMinute(ghost fence: Trade) returns (r: Result<()>)
      requires Valid() && Addressable(ledger) && fence.id == NextId(ledger) && fence.id in pending
               && pending[fence.id] == fence
      requires fence.ts >= ledger.v.cut + MINUTE && ledger.v.cut in candles
      modifies this`calls, this`ledger, this`front, this`aggregate, this`candles, this`openedAt, this`closes
      ensures Sound()
      ensures r.Ok? ==> Valid() && NextId(ledger) == NextId(old(ledger)) && ledger.start == old(ledger).start
      ensures r.Ok? ==> ledger.v.cut == old(ledger).v.cut + MINUTE
                        && candles == CandlesAfter(old(candles), old(ledger).v.cut)
                        && AllAfter(candles, old(ledger).v.cut)
      ensures r.Ok? ==> Keeps(old(ledger), pending, ledger, pending)
                        && KeepsCandles(old(ledger).v.cut, old(candles), old(closes), ledger.v.cut, candles, closes)
      ensures old(Willing()) ==> r.Ok? && Willing()
    {
      hide OnTape, OpenMinute, Closed, Held, Ended, Filed, TotalBytes, OnTapePrint, Serves, ReconcilesFenced, NextId,
           Addressable, Staged, Cooperates, Truthful, Willing, Keeps, KeepsCandles, CandlesAfter, AllAfter;
      var minute := ledger.v.cut;
      ghost var willing := Willing();
      var candle := candles[minute];
      HeldOne(ledger, pending, honest, tape, fence.id);
      if willing {
        WillingCut(fence);
      }
      if venue.candleIsPrintSum && !ReconcilesFenced(aggregate, candle) {
        return Err(21);
      }
      var line := TimeCut(minute + MINUTE);
      ghost var cutAt := CutMoves(fence);
      KeepsClosed(minute, candles, closes);
      AfterCut(candles, minute);
      ClosedEnded(venue, began, minute, candles, watermark);
      if Staged(ledger, line, Some(candle.bar)).Ok? {
        KeepsStaged(ledger, pending, line, Some(candle.bar));
      }
      closes := closes[minute := candle];
      r := Emit(line, Some(candle.bar));
      if r.Err? {
        return;
      }
      HeldSame(old(ledger), ledger, pending, honest, tape);
      if willing {
        FewerCandles(ledger, candles, newest, tape, truth, minute);
      }
      aggregate, openedAt := EMPTY, cutAt;
      candles := CandlesAfter(candles, minute);
      if willing {
        StillWilling();
      }
    }

    /** Closes the open minute behind the fence, the next print, already in hand, in a later minute: with the candle in
        hand, or the one the venue serves once the watermark has passed it. */
    method CloseMinute(ghost fence: Trade) returns (r: Result<bool>)
      requires Valid() && Addressable(ledger) && fence.id == NextId(ledger) && fence.id in pending
               && pending[fence.id] == fence
      requires fence.ts >= ledger.v.cut + MINUTE
      modifies this`calls, this`ledger, this`front, this`aggregate, this`candles, this`openedAt, this`closes
      ensures Sound()
      ensures r.Ok? ==> Valid() && NextId(ledger) == NextId(old(ledger)) && ledger.start == old(ledger).start
      ensures r == Ok(true) ==> ledger.v.cut == old(ledger).v.cut + MINUTE
                                && (old(ledger).v.cut in old(candles) || ledger.v.cut < watermark)
                                && AllAfter(candles, old(ledger).v.cut)
      ensures r.Ok? ==> Keeps(old(ledger), pending, ledger, pending)
                        && KeepsCandles(old(ledger).v.cut, old(candles), old(closes), ledger.v.cut, candles, closes)
      ensures r == Ok(false) ==> ledger == old(ledger) && ledger.v.cut !in candles && watermark <= ledger.v.cut + MINUTE
      ensures old(Willing()) ==> r.Ok? && Willing()
    {
      hide OnTape, OpenMinute, Closed, Held, Ended, Filed, TotalBytes, OnTapePrint, Serves, NextId, Addressable, Staged,
           Cooperates, Truthful, Willing, Keeps, KeepsCandles;
      KeepsMore(ledger, pending, pending);
      KeepsMoreCandles(ledger.v.cut, candles, closes, candles);
      if ledger.v.cut !in candles {
        if watermark <= ledger.v.cut + MINUTE {
          return Ok(false);
        }
        var _ :- FetchCandles();
        KeepsMoreCandles(ledger.v.cut, old(candles), closes, candles);
      }
      ghost var fetched := candles;
      var _ :- CutMinute(fence);
      KeepsCandlesOn(old(ledger).v.cut, old(candles), old(closes), old(ledger).v.cut, fetched, old(closes),
                     ledger.v.cut, candles, closes);
      return Ok(true);
    }

    lemma HeldPrint(id: nat)
      requires Valid() && id in pending
      ensures Sound() && ledger.predecessor.Some? && pending[id].id == id && NextId(ledger) <= id
    {
      HeldOne(ledger, pending, honest, tape, id);
      NoneBehind(ledger, pending, honest, tape, id);
    }

    /** All that is left is to wait: for a candle or a later watermark with the fence in hand, else for a print. */
    ghost predicate Waits()
      reads `ledger, `pending, `candles, `watermark, `forwardWatermark
    {
      if pending == map[] then watermark <= ledger.v.cut + MINUTE || forwardWatermark >= watermark
      else
        && NextId(ledger) in pending && pending[NextId(ledger)].ts >= ledger.v.cut + MINUTE
        && ledger.v.cut !in candles && watermark <= ledger.v.cut + MINUTE
    }

    /** The candle has closed its minute, or waits for it to be over. */
    ghost predicate HasCandle(cut: int, kline: Kline)
      reads `ledger, `candles, `closes
    {
      var minute := kline.bar.ts;
      (minute - cut) % MINUTE == 0 ==>
        if minute < ledger.v.cut then minute in closes && closes[minute].bar == kline.bar
        else minute in candles && candles[minute].bar == kline.bar
    }

    /** One round over a buffer that is not empty: heals the gap before it, emits its first print, or closes the open
        minute behind it; false when that minute must wait for its candle. */
    method Turn() returns (r: Result<bool>)
      requires Valid() && pending != map[]
      modifies this`calls, this`ledger, this`front, this`aggregate, this`candles, this`openedAt, this`closes,
               this`pending, this`pendingBytes
      ensures Sound()
      ensures r.Ok? ==> Valid() && Keeps(old(ledger), old(pending), ledger, pending)
                        && KeepsCandles(old(ledger).v.cut, old(candles), old(closes), ledger.v.cut, candles, closes)
      ensures r == Ok(true) ==> Nearer(old(ledger), old(pending), ledger, pending)
      ensures r == Ok(false) ==>
                NextId(ledger) in pending && pending[NextId(ledger)].ts >= ledger.v.cut + MINUTE
                && ledger.v.cut !in candles && watermark <= ledger.v.cut + MINUTE
      ensures old(Willing()) ==> r.Ok? && Willing()
    {
      hide OnTape, OpenMinute, Closed, Held, Ended, Filed, TotalBytes, OnTapePrint, Serves, NextId, Addressable,
           Willing, Keeps, KeepsCandles, Cooperates, Truthful, Staged, Anchors, Rows, Ahead, Reads;
      ghost var before, held, willing := ledger, pending, Willing();
      KeepsMoreCandles(ledger.v.cut, candles, closes, candles);
      var head := Least(pending.Keys);
      HeldPrint(head);
      var next := pending[head];
      if willing {
        WillingChain();
      }
      if !Addressable(ledger) {
        return Err(20);
      }
      if next.id < NextId(ledger) {
        return Err(21);
      }
      if next.id > NextId(ledger) {
        var _ :- Heal();
        KeepsMore(ledger, held, pending);
        GapCloses(before, ledger, held, pending);
        return Ok(true);
      }
      if next.ts < ledger.v.cut + MINUTE {
        var _ :- EmitTrade(next);
        PrintLeaves(before, ledger, held, head);
        return Ok(true);
      }
      r := CloseMinute(next);
      if r.Ok? {
        AheadSame(before, ledger, held, pending);
      }
    }

    /** Drains the buffer: heals gaps, emits prints and closes minutes behind their fence, until only a wait is left. */
    method Advance() returns (r: Result<()>)
      requires Valid()
      modifies this`calls, this`ledger, this`front, this`aggregate, this`candles, this`openedAt, this`closes,
               this`pending, this`pendingBytes, this`forwardWatermark
      ensures Sound()
      ensures r.Ok? ==> Valid() && Keeps(old(ledger), old(pending), ledger, pending)
                        && KeepsCandles(old(ledger).v.cut, old(candles), old(closes), ledger.v.cut, candles, closes)
      ensures r.Ok? ==> Waits()
      ensures old(Willing()) ==> r.Ok? && Willing()
    {
      hide OnTape, OpenMinute, Closed, Held, Ended, Filed, TotalBytes, OnTapePrint, Serves, NextId, Addressable,
           Willing, Keeps, KeepsCandles, Cooperates, Truthful, Staged, Ahead;
      ghost var start, buffer, known, closed, willing := ledger, pending, candles, closes, Willing();
      KeepsMore(ledger, pending, pending);
      KeepsMoreCandles(ledger.v.cut, candles, closes, candles);
      while true
        invariant Valid() && (willing ==> Willing())
        invariant Keeps(start, buffer, ledger, pending)
        invariant KeepsCandles(start.v.cut, known, closed, ledger.v.cut, candles, closes)
        decreases if forwardWatermark < watermark then 1 else 0,
                  Ahead(ledger, pending),
                  if NextId(ledger) in pending then 0 else 1,
                  if NextId(ledger) in pending then pending[NextId(ledger)].ts - ledger.v.cut else 0
      {
        ghost var before, held, waiting, over := ledger, pending, candles, closes;
        if pending == map[] {
          if watermark <= ledger.v.cut + MINUTE {
            return Ok(());
          }
          var more :- Forward();
          KeepsOn(start, buffer, before, held, ledger, pending);
          if !more {
            return Ok(());
          }
          continue;
        }
        var more :- Turn();
        KeepsOn(start, buffer, before, held, ledger, pending);
        KeepsCandlesOn(start.v.cut, known, closed, before.v.cut, waiting, over, ledger.v.cut, candles, closes);
        if !more {
          return Ok(());
        }
      }
    }

    /** The first retained proof of a minute. */
    method ProofOf(minute: int) returns (proof: Option<Bar>)
      ensures proof == FirstProof(ledger.proofs, minute)
    {
      var i := 0;
      assert ledger.proofs[0..] == ledger.proofs;
      while i < |ledger.proofs|
        invariant i <= |ledger.proofs| && FirstProof(ledger.proofs, minute) == FirstProof(ledger.proofs[i..], minute)
      {
        assert ledger.proofs[i..][1..] == ledger.proofs[i + 1..];
        if ledger.proofs[i].ts == minute {
          return Some(ledger.proofs[i]);
        }
        i := i + 1;
      }
      return None;
    }

    lemma TapeReaches()
      requires Valid() && honest
      ensures first <= |tape|
    {
    }

    /** Holds a candle of a closed minute against the retained proof, else, where candles are print sums, against the
        minute's prints in the journal. */
    method HoldAgainst(kline: Kline) returns (r: Result<()>)
      requires Valid() && kline.bar.ts % MINUTE == 0 && ledger.start <= kline.bar.ts < ledger.v.cut
      ensures var proof, prints := FirstProof(ledger.proofs, kline.bar.ts),
              MinuteOf(PrintsIn(ledger.log), kline.bar.ts);
              if proof.Some? then r == if proof.value == kline.bar then Ok(()) else Err(21)
              else if !venue.candleIsPrintSum then r == Ok(())
              else (r.Ok? ==> IsBarOf(kline.bar, prints))
                   && (Run(prints) ==> r == if IsBarOf(kline.bar, prints) then Ok(()) else Err(21))
      ensures r.Ok? ==> Confirms(ledger, kline, tape, first, honest && venue.candleIsPrintSum)
      ensures Willing() && kline.bar == truth(kline.bar.ts) ==> r.Ok?
    {
      hide OnTape, OpenMinute, Closed, Held, Ended, Filed, TotalBytes, OnTapePrint, Serves, Between, Run, Summarizes,
           ReconcilesFenced, IsBarOf, Cooperates, Truthful, Willing;
      var minute := kline.bar.ts;
      if Willing() && kline.bar == truth(minute) {
        WillingCandle(kline);
      }
      var proof := ProofOf(minute);
      if proof.Some? {
        return if proof.value == kline.bar then Ok(()) else Err(21);
      }
      if !venue.candleIsPrintSum {
        return Ok(());
      }
      var rebuilt :- Refold(ledger.log, minute, minute + MINUTE);
      ReconcilesExactly(rebuilt, MinuteOf(PrintsIn(ledger.log), minute), kline);
      if honest {
        TapeReaches();
        ClosedMinuteInLog(tape, first, ledger, minute);
      }
      return if ReconcilesFenced(rebuilt, kline) then Ok(()) else Err(21);
    }

    /** Takes a confirmed candle: buffers it for an open minute, or holds it against a minute that is already closed. */
    method TakeCandle(kline: Kline) returns (r: Result<()>)
      requires Valid() && kline.bar.ts % MINUTE == 0
      modifies this`watermark, this`candles
      ensures Valid()
      ensures !kline.confirmed ==> r.Ok? && watermark == old(watermark) && candles == old(candles)
      ensures kline.confirmed ==> watermark == Later(old(watermark), kline.bar.ts + MINUTE)
      ensures r.Err? || kline.bar.ts < ledger.v.cut ==> candles == old(candles)
      ensures var minute := kline.bar.ts;
              kline.confirmed ==>
                && (minute < ledger.start ==> r.Ok?)
                && (ledger.start <= minute < ledger.v.cut ==>
                      if ExpiredMinute(ledger.mode, front, minute) then r.Ok?
                      else if FirstProof(ledger.proofs, minute).Some? then
                        r == if FirstProof(ledger.proofs, minute).value == kline.bar then Ok(()) else Err(21)
                      else !venue.candleIsPrintSum ==> r.Ok?)
                && (ledger.start <= minute < ledger.v.cut && r.Ok? && !ExpiredMinute(ledger.mode, front, minute) ==>
                      Confirms(ledger, kline, tape, first, honest && venue.candleIsPrintSum))
                && (minute >= ledger.start && minute >= ledger.v.cut ==>
                      && r == (if |old(candles)| >= 100000 then Err(22)
                               else if minute in old(candles) && old(candles)[minute].bar != kline.bar then Err(21)
                               else Ok(()))
                      && (r.Ok? ==> candles == if minute in old(candles) then old(candles)
                                               else old(candles)[minute := kline]))
      ensures KeepsCandles(ledger.v.cut, old(candles), closes, ledger.v.cut, candles, closes)
      ensures (old(Willing()) && (kline.confirmed ==> kline.bar == truth(kline.bar.ts) && |old(candles)| < 100000)) ==>
                r.Ok? && Willing()
    {
      hide OnTape, OpenMinute, Closed, Held, Ended, Filed, TotalBytes, OnTapePrint, Serves, Between, Run, Summarizes,
           ReconcilesFenced, IsBarOf, Cooperates, Truthful, Willing, Confirms, KeepsCandles, ExpiredMinute;
      ghost var willing := Willing() && kline.bar == truth(kline.bar.ts);
      KeepsMoreCandles(ledger.v.cut, candles, closes, candles);
      if willing {
        WillingCandle(kline);
      }
      if !kline.confirmed {
        return Ok(());
      }
      var minute := kline.bar.ts;
      ConfirmedEnded(venue, began, ledger.v.cut, candles, watermark, Later(watermark, minute + MINUTE));
      if watermark < minute + MINUTE {
        watermark := minute + MINUTE;
      }
      if minute < ledger.start || (minute < ledger.v.cut && ExpiredMinute(ledger.mode, front, minute)) {
        return Ok(());
      }
      if minute < ledger.v.cut {
        r := HoldAgainst(kline);
        return;
      }
      if |candles| >= 100000 {
        return Err(22);
      }
      if minute in candles {
        return if candles[minute].bar == kline.bar then Ok(()) else Err(21);
      }
      KeepsMoreCandles(ledger.v.cut, candles, closes, candles[minute := kline]);
      FiledMore(candles, kline);
      candles := candles[minute := kline];
      if willing {
        StillWilling();
      }
      return Ok(());
    }

    /** Takes a print into the buffer, with the predecessor first; one before the start only moves venue time. */
    method TakePrint(trade: Trade) returns (r: Result<bool>)
      requires Valid() && (honest ==> OnTapePrint(tape, trade))
      modifies this`newest, this`calls, this`ledger, this`pending, this`pendingBytes
      ensures Valid() && newest == Later(old(newest), trade.ts)
      ensures trade.ts < old(ledger).start ==>
                r == Ok(false) && ledger == old(ledger) && pending == old(pending) && calls == old(calls)
      ensures trade.ts >= old(ledger).start && r.Ok? ==>
                r.value && (Taken(ledger, pending, trade) || (!honest && ExpiredId(front, trade.id)))
      ensures r.Ok? ==> Keeps(old(ledger), old(pending), ledger, pending) && ledger.v == old(ledger).v
                        && ledger.start == old(ledger).start
      ensures old(Willing()) ==> r.Ok? && Willing()
    {
      hide OnTape, OpenMinute, Closed, Held, Ended, Filed, TotalBytes, OnTapePrint, Serves, Cooperates, Truthful,
           Willing, Keeps, Taken, ExpiredId, NextId, Anchors, PutAnswer;
      ghost var start, buffer, willing := ledger, pending, Willing();
      KeepsMore(ledger, pending, pending);
      if willing {
        WillingPrint(trade);
      }
      if newest < trade.ts {
        newest := trade.ts;
      }
      if willing {
        StillWilling();
      }
      if trade.ts < ledger.start {
        return Ok(false);
      }
      var _ :- Anchor();
      ghost var anchored := ledger;
      var _ :- Put(trade, false);
      KeepsOn(start, buffer, anchored, buffer, ledger, pending);
      return Ok(true);
    }

    /** One venue event, in any order, repeated or after losses: the log stays the tape's. */
    method Stage(event: Event) returns (r: Result<()>)
      requires Valid()
      requires event.Print? && honest ==> OnTapePrint(tape, event.trade)
      requires event.Candle? ==> event.kline.bar.ts % MINUTE == 0
      modifies this
      ensures Sound()
      ensures r.Ok? ==> Valid() && Keeps(old(ledger), old(pending), ledger, pending)
                        && KeepsCandles(old(ledger).v.cut, old(candles), old(closes), ledger.v.cut, candles, closes)
      ensures r.Ok? && event.Print? && event.trade.ts >= old(ledger).start ==>
                Taken(ledger, pending, event.trade) || (!honest && ExpiredId(old(front), event.trade.id))
      ensures watermark == if event.Candle? && event.kline.confirmed
                           then Later(old(watermark), event.kline.bar.ts + MINUTE) else old(watermark)
      ensures event.Print? && event.trade.ts < old(ledger).start ==>
                r.Ok? && ledger == old(ledger) && pending == old(pending) && candles == old(candles)
                && calls == old(calls)
      ensures newest == if event.Print? then Later(old(newest), event.trade.ts) else old(newest)
      ensures r.Ok? && event.Candle? && event.kline.confirmed && event.kline.bar.ts >= old(ledger).start ==>
                && (old(ledger).v.cut <= event.kline.bar.ts ==> HasCandle(old(ledger).v.cut, event.kline))
                && (event.kline.bar.ts < old(ledger).v.cut
                    && !ExpiredMinute(old(ledger).mode, old(front), event.kline.bar.ts) ==>
                      Confirms(old(ledger), event.kline, tape, first, honest && venue.candleIsPrintSum))
      ensures r.Ok? && (event.Print? ==> event.trade.ts >= old(ledger).start) ==> Waits()
      ensures (old(Willing()) && (event.Candle? && event.kline.confirmed ==>
                                    event.kline.bar == truth(event.kline.bar.ts) && |old(candles)| < 100000))
              ==> r.Ok? && Willing()
    {
      hide OnTape, OpenMinute, Closed, Held, Ended, Filed, TotalBytes, OnTapePrint, Serves, Cooperates, Truthful,
           Willing, Keeps, KeepsCandles, Waits, Taken, Confirms, ExpiredId, NextId, Anchors, PutAnswer, FirstProof,
           ExpiredMinute;
      ghost var start, buffer, known, closed, willing := ledger, pending, candles, closes, Willing();
      KeepsMore(ledger, pending, pending);
      KeepsMoreCandles(ledger.v.cut, candles, closes, candles);
      if event.Candle? {
        var _ :- TakeCandle(event.kline);
        ghost var taken := candles;
        r := Advance();
        if r.Ok? {
          KeepsCandlesOn(start.v.cut, known, closed, start.v.cut, taken, closed, ledger.v.cut, candles, closes);
          if event.kline.confirmed && start.start <= event.kline.bar.ts && start.v.cut <= event.kline.bar.ts {
            CandleKept(start.v.cut, taken, closed, ledger.v.cut, candles, closes, event.kline);
          }
        }
        return;
      }
      var ahead :- TakePrint(event.trade);
      if !ahead {
        return Ok(());
      }
      ghost var next, held := ledger, pending;
      r := Advance();
      if r.Ok? {
        KeepsOn(start, buffer, next, held, ledger, pending);
        if Taken(next, held, event.trade) {
          TakenStays(next, held, ledger, pending, event.trade);
        }
      }
    }
  }

  /** A session over a recovered journal, read from an index that skips no print of the open minute: its aggregate is
      that of the minute's prints. */
  method Restart(venue: Venue, host: Host, limits: Limits, ledger: Ledger, front: Segment, from: nat,
                 ghost tape: seq<Trade>, ghost first: nat, ghost honest: bool, ghost truth: int -> Bar,
                 ghost closes: map<int, Kline>)
    returns (r: Result<FenceSession>)
    requires from <= |ledger.log| && (ledger.predecessor == None ==> ledger.v.lastId == 0)
    requires honest ==>
               Serves(venue, tape, first) && Restartable(tape, first, ledger, from, closes, venue.candleIsPrintSum)
    ensures r.Ok? ==> fresh(r.value) && r.value.Valid() && r.value.ledger == ledger && r.value.honest == honest
                      && r.value.tape == tape
    ensures honest ==> r.Ok?
    ensures (honest && Cooperates(venue, host, limits, tape, first, ledger.start, truth)
             && Truthful(ledger, map[], -1, tape, truth)) ==> r.value.Willing()
  {
    ghost var openedAt := first;
    if honest {
      openedAt := RestartOnTape(tape, first, ledger);
      OpenMinuteInLog(tape, first, ledger, openedAt);
    }
    hide OnTape, Closed, Serves, Between, Run, Summarizes, Canonical, Anchored, Fold, PrintsIn;
    if honest {
      OpenPrintsFrom(ledger.log, from, ledger.v.cut, MAX_I64 + 1);
    }
    var aggregate :- Refold(ledger.log[from..], ledger.v.cut, MAX_I64 + 1);
    var session := new FenceSession(venue, host, limits, ledger, front, aggregate, tape, first, honest, truth,
                                    openedAt, closes);
    return Ok(session);
  }
}
