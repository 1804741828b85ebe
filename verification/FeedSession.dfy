/** Raw ticks proven by the closed kline's own ID range, or by a later watermark and the next minute's first print. */
module FeedSessions {
  import opened Feed
  import opened Ordered
  import opened JournalFormat
  import opened Retention
  import opened Tape
  import opened Aggregates
  import opened Ledgers
  import opened KlineRange
  import opened Cooperation
  import opened RawCooperation

  /** The kline's ID range is one of as many prints as it counts. */
  predicate Bounded(kline: Kline) {
    kline.count > 0 && 0 < kline.first <= kline.last && kline.last - kline.first + 1 == kline.count
  }

  /** A page's first print becomes the start predecessor exactly when it is before the start of an empty log. */
  ghost predicate AnchorAnswer(page: Result<seq<Trade>>, before: Ledger, after: Ledger, r: Result<()>) {
    match page
    case Err(code) => r == Err(code) && after == before
    case Ok(prints) =>
      prints != [] && if before.v.index == 0 && before.log == [] && prints[0].ts < before.start
                      then r.Ok? && after == before.(predecessor := Some(prints[0]))
                      else r == Err(20) && after == before
  }

  class FeedSession {
    const venue: RawVenue
    const host: Host
    const limits: Limits
    ghost const tape: seq<Trade>
    ghost const first: nat
    ghost const honest: bool          // whether the venue serves `tape`; otherwise its answers are arbitrary
    ghost const truth: int -> Kline   // each complete minute's kline, when the venue tells the truth
    ghost const began: int            // the open minute when the session began
    var ledger: Ledger
    var front: Segment
    var aggregate: Aggregate
    var pending: map<nat, Trade>
    var pendingBytes: nat
    var watermark: int
    var calls: nat
    ghost var closes: map<int, Closure>

    /** What a reader of the journal may rely on, whatever the venue said and whatever stopped the session: also that no
        minute was closed since the session began that no confirmed kline has ended. */
    ghost predicate Sound()
      reads this
    {
      && Adapted(venue) && Journaled(ledger) && Proven(ledger, closes)
      && (ledger.v.cut == began || ledger.v.cut <= watermark)
    }

    ghost predicate Valid()
      reads this
    {
      && Sound() && Open(ledger, aggregate)
      && (forall id :: id in pending ==> pending[id].id == id)
      && pendingBytes == TotalBytes(limits.bytesOf, pending) <= limits.maxQueueBytes
    }

    /** Nothing stands in the way: each minute has prints, the venue answers truly and in full, the buffer has room and
        the host goes on. */
    ghost predicate Willing()
      reads `ledger, `pending
    {
      && honest && RawCooperates(venue, host, limits, tape, first, ledger.start, truth)
      && RawTruthful(ledger, pending, tape, first, truth)
    }

    constructor (venue: RawVenue, host: Host, limits: Limits, ledger: Ledger, front: Segment, aggregate: Aggregate,
                 ghost tape: seq<Trade>, ghost first: nat, ghost honest: bool, ghost truth: int -> Kline,
                 ghost closes: map<int, Closure>)
      requires Adapted(venue) && Journaled(ledger) && Proven(ledger, closes) && Open(ledger, aggregate)
      ensures Valid() && this.ledger == ledger && this.aggregate == aggregate
      ensures pending == map[] && watermark == -1 && this.tape == tape && this.truth == truth && this.honest == honest
      ensures (honest && RawCooperates(venue, host, limits, tape, first, ledger.start, truth)
               && RawTruthful(ledger, map[], tape, first, truth)) ==> Willing()
    {
      this.venue, this.host, this.limits, this.ledger, this.front, this.aggregate, this.closes :=
        venue, host, limits, ledger, front, aggregate, closes;
      this.tape, this.first, this.honest, this.truth, began := tape, first, honest, truth, ledger.v.cut;
      pending, pendingBytes, watermark, calls := map[], 0, -1, 0;
    }

    lemma StillWilling()
      requires honest && RawCooperates(venue, host, limits, tape, first, ledger.start, truth)
      requires RawTruthful(ledger, pending, tape, first, truth)
      ensures Willing()
    {
    }

    lemma WillingFacts(call: nat)
      requires Willing()
      ensures honest && RawCooperates(venue, host, limits, tape, first, ledger.start, truth)
      ensures RawTruthful(ledger, pending, tape, first, truth) && OnTape(tape, first, ledger)
      ensures !host.stops(call) && !host.publishFails(call)
      ensures Anchored(tape, ledger.start, first) && tape[|tape| - 1].id < MAX_U64
      ensures ledger.predecessor.Some? ==>
                Addressable(ledger) && tape[0].id < NextId(ledger) <= tape[|tape| - 1].id + 1
      ensures ledger.predecessor.None? ==> pending == map[]
      ensures forall id :: id in pending ==> NextId(ledger) <= id && OnTapePrint(tape, pending[id])
    {
      RawFacts(venue, host, limits, tape, first, ledger.start, truth, call);
      if ledger.predecessor.Some? {
        RawChain(tape, first, ledger, pending, truth);
      }
    }

    method Emit(m: Message, proof: Option<Bar>) returns (r: Result<()>)
      requires proof.Some? ==> m.TimeCut?
      modifies this`ledger, this`front, this`calls
      ensures ledger == old(ledger)
              || (Staged(old(ledger), m, proof).Ok? && ledger == Staged(old(ledger), m, proof).value)
      ensures r.Ok? ==> Staged(old(ledger), m, proof).Ok? && ledger == Staged(old(ledger), m, proof).value
      ensures Staged(old(ledger), m, proof).Ok? && !host.stops(old(calls)) && !host.publishFails(old(calls)) ==> r.Ok?
      ensures r.Ok? ==> !host.stops(old(calls)) && !host.publishFails(old(calls)) && front == host.front(old(calls))
      ensures calls == old(calls) + 1
    {
      r, ledger, front := Publish(host, calls, ledger, front, m, proof);
      calls := calls + 1;
    }

    /** The first print's predecessor, read by ID. */
    method Anchor(id: nat) returns (r: Result<()>)
      requires Valid()
      modifies this`ledger, this`calls
      ensures Valid() && ledger.v == old(ledger).v && ledger.log == old(ledger).log && ledger.start == old(ledger).start
      ensures r.Ok? ==> ledger.predecessor.Some? && Keeps(old(ledger), pending, ledger, pending)
      ensures r.Err? ==> ledger == old(ledger)
      ensures old(ledger).predecessor.Some? ==> r.Ok? && ledger == old(ledger) && calls == old(calls)
      ensures ledger == old(ledger).(predecessor := ledger.predecessor)
      ensures old(ledger).predecessor.None? ==>
                && (id <= 1 ==> r == Err(20) && calls == old(calls))
                && (id > 1 ==> calls == old(calls) + 1
                               && AnchorAnswer(venue.history(calls, id - 1), old(ledger), ledger, r))
      ensures old(Willing()) && (old(ledger).predecessor.None? ==> first < |tape| && id == tape[first].id) ==>
                r.Ok? && Willing()
    {
      hide Run, Summarizes, Between, PrintsIn, Proves, TotalBytes, IsHistory, Keeps, Willing, RawTruthful,
           RawCooperates, OnTapePrint;
      ghost var willing := Willing() && first < |tape| && id == tape[first].id;
      KeepsAnchored(ledger, pending, ledger.predecessor);
      if ledger.predecessor.Some? {
        return Ok(());
      }
      if willing {
        WillingFacts(calls);
        RawAnchor(tape, first, ledger, pending, truth);
        RawHistory(venue, host, limits, tape, first, ledger.start, truth, calls + 1, id - 1);
      }
      if id <= 1 {
        return Err(20);
      }
      calls := calls + 1;
      FirstOfPage(venue, calls, id - 1);
      var page :- venue.history(calls, id - 1);
      if willing {
        FirstIsHere(tape, id - 1, page);
      }
      if ledger.v.index != 0 || ledger.log != [] || page[0].ts >= ledger.start {
        return Err(20);
      }
      KeepsAnchored(ledger, pending, Some(page[0]));
      ledger := ledger.(predecessor := Some(page[0]));
      if willing {
        StillWilling();
      }
      return Ok(());
    }

    /** Anchors on the first print at or after the start, as the venue names it. */
    method AnchorFirst() returns (r: Result<()>)
      requires Valid()
      modifies this`ledger, this`calls
      ensures Valid() && ledger == old(ledger).(predecessor := ledger.predecessor)
      ensures r.Ok? ==> ledger.predecessor.Some? && Keeps(old(ledger), pending, ledger, pending)
      ensures old(ledger).predecessor.Some? ==> r.Ok? && ledger == old(ledger) && calls == old(calls)
      ensures old(Willing()) ==> r.Ok? && Willing()
    {
      hide Journaled, Proven, Open, TotalBytes, Adapted, Keeps, Willing;
      KeepsMore(ledger, pending, pending);
      KeepsAnchored(ledger, pending, ledger.predecessor);
      if ledger.predecessor.None? {
        calls := calls + 1;
        if old(Willing()) {
          WillingFirst();
        }
        var id :- venue.firstId(calls, ledger.start);
        r := Anchor(id);
        return;
      }
      return Ok(());
    }

    lemma WillingFirst()
      requires Willing()
      ensures first < |tape| && venue.firstId(calls, ledger.start) == Ok(tape[first].id)
    {
      RawFacts(venue, host, limits, tape, first, ledger.start, truth, calls);
    }

    /** A print of the tape finds its place: before the start, in the journal, in the buffer, or in the room left. */
    lemma WillingTake(trade: Trade)
      requires Willing() && ledger.predecessor.Some? && OnTapePrint(tape, trade)
      ensures trade.Valid() && honest && RawCooperates(venue, host, limits, tape, first, ledger.start, truth)
      ensures trade.ts >= ledger.start && ledger.v.lastId != 0 && trade.id <= ledger.v.lastId ==>
                FindIn(Prints(ledger), trade.id) == Some(trade)
      ensures trade.ts >= ledger.start && !(ledger.v.lastId != 0 && trade.id <= ledger.v.lastId) ==>
                && (trade.id in pending ==> pending[trade.id] == trade)
                && (trade.id !in pending ==>
                      TotalBytes(limits.bytesOf, pending) + limits.bytesOf(trade) <= limits.maxQueueBytes)
                && RawTruthful(ledger, pending[trade.id := trade], tape, first, truth)
    {
      hide OnTape, RawTruthful, RawCooperates, OnTapePrint, FindIn, PrintsIn, TotalBytes, Anchored;
      RawFacts(venue, host, limits, tape, first, ledger.start, truth, calls);
      OnTapeIsValid(tape, ledger.start, first, trade);
      if trade.ts >= ledger.start {
        RawPrint(tape, first, ledger, pending, truth, trade);
        if trade.id !in pending {
          TruthfulBuffer(ledger, pending, tape, first, truth, ledger.start);
          RoomForOne(limits.bytesOf, tape, pending, trade);
        }
      }
    }

    /** Buffers a print ahead of the journal; a repeated one must be the one already held or emitted. */
    method Put(trade: Trade) returns (r: Result<()>)
      requires Valid()
      modifies this`pending, this`pendingBytes
      ensures Valid()
      ensures pending == old(pending) || (trade.id !in old(pending) && pending == old(pending)[trade.id := trade])
      ensures Keeps(ledger, old(pending), ledger, pending)
      ensures r == if !trade.Valid() then Err(23) else if trade.ts < ledger.start then Ok(())
                   else PutAnswer(ledger, front, old(pending),
                                  TotalBytes(limits.bytesOf, old(pending)) + limits.bytesOf(trade)
                                    <= limits.maxQueueBytes, trade)
      ensures r.Ok? && trade.ts >= ledger.start ==>
                && (Taken(ledger, pending, trade) || ExpiredId(front, trade.id))
                && (NextId(ledger) <= trade.id ==> trade.id in pending && pending[trade.id] == trade)
      ensures old(Willing()) && ledger.predecessor.Some? && OnTapePrint(tape, trade) ==> r.Ok? && Willing()
    {
      hide Journaled, Proven, Open, Adapted, Keeps, ExpiredId, PrintsIn, FindIn, Willing, RawTruthful, RawCooperates,
           OnTapePrint, OnTape;
      KeepsMore(ledger, pending, pending);
      ghost var willing := Willing() && ledger.predecessor.Some? && OnTapePrint(tape, trade);
      if willing {
        WillingTake(trade);
      }
      if !trade.Valid() {
        return Err(23);
      }
      if trade.ts < ledger.start {
        return Ok(());
      }
      if ledger.v.lastId != 0 && trade.id <= ledger.v.lastId {
        if FindIn(Prints(ledger), trade.id) == Some(trade) {
          FoundIsEmitted(ledger.log, trade);
        }
        return if ExpiredId(front, trade.id) || FindIn(Prints(ledger), trade.id) == Some(trade) then Ok(())
               else Err(21);
      }
      if trade.id in pending {
        return if pending[trade.id] == trade then Ok(()) else Err(21);
      }
      var bytes := limits.bytesOf(trade);
      var used := if pendingBytes < limits.maxQueueBytes then pendingBytes else limits.maxQueueBytes;
      if bytes > limits.maxQueueBytes - used {
        return Err(22);
      }
      TotalBytesInsert(limits.bytesOf, pending, trade.id, trade);
      KeepsMore(ledger, pending, pending[trade.id := trade]);
      pendingBytes := pendingBytes + bytes;
      pending := pending[trade.id := trade];
      if willing {
        StillWilling();
      }
      return Ok(());
    }

    /** Emits the next print; a buffered copy must agree and is forgotten. */
    method EmitTrade(trade: Trade) returns (r: Result<()>)
      requires Valid()
      modifies this`ledger, this`front, this`calls, this`aggregate, this`pending, this`pendingBytes
      ensures Sound() && ledger.start == old(ledger).start
      ensures r.Ok? ==> Valid() && pending == old(pending) - {trade.id} && Addressable(old(ledger))
                        && trade.id == NextId(old(ledger)) && NextId(ledger) == trade.id + 1
                          && ledger.v.cut == old(ledger).v.cut
                          && Keeps(old(ledger), old(pending), ledger, pending)
                          && ledger.predecessor == old(ledger).predecessor
      ensures r.Err? ==> pending == old(pending) && pendingBytes == old(pendingBytes)
      ensures trade.ts < old(ledger).v.lastTickTs ==> r == Err(23) && ledger == old(ledger)
      ensures (old(ledger).v.lastTickTs <= trade.ts
               && (!Addressable(old(ledger)) || trade.id != NextId(old(ledger)) || trade.ts < old(ledger).v.cut
                   || trade.ts >= old(ledger).v.cut + MINUTE)) ==> r == Err(20) && ledger == old(ledger)
      ensures (old(ledger).v.lastTickTs <= trade.ts && Addressable(old(ledger)) && trade.id == NextId(old(ledger))
               && old(ledger).v.cut <= trade.ts < old(ledger).v.cut + MINUTE
               && trade.id in old(pending) && old(pending)[trade.id] != trade) ==> r == Err(21) && ledger == old(ledger)
      ensures (old(Willing()) && old(ledger).predecessor.Some? && OnTapePrint(tape, trade)
               && trade.id == NextId(old(ledger)) && trade.ts < old(ledger).v.cut + MINUTE) ==> r.Ok? && Willing()
    {
      hide Journaled, Proven, Open, Adapted, TotalBytes, Keeps, Willing, RawTruthful, RawCooperates, OnTapePrint,
           OnTape, Addressable, NextId, Staged, Add;
      ghost var willing := Willing() && ledger.predecessor.Some? && OnTapePrint(tape, trade)
        && trade.id == NextId(ledger) && trade.ts < ledger.v.cut + MINUTE;
      if willing {
        WillingFacts(calls);
        RawTick(tape, first, ledger, pending, truth, trade);
      }
      if trade.ts < ledger.v.lastTickTs {
        return Err(23);
      }
      if !Addressable(ledger) || trade.id != NextId(ledger) || trade.ts < ledger.v.cut
        || trade.ts >= ledger.v.cut + MINUTE {
        return Err(20);
      }
      if trade.id in pending && pending[trade.id] != trade {
        return Err(21);
      }
      if Staged(ledger, Tick(trade), None).Ok? {
        Moves(ledger, Tick(trade), None);
        TickJoins(ledger, aggregate, closes, trade);
        KeepsEmitted(ledger, pending, trade);
      }
      hide Staged, Add;
      aggregate :- Add(aggregate, trade);
      r := Emit(Tick(trade), None);
      if r.Err? {
        return;
      }
      if trade.id in pending {
        TotalBytesRemove(limits.bytesOf, pending, trade.id);
        pendingBytes := pendingBytes - limits.bytesOf(pending[trade.id]);
        pending := pending - {trade.id};
      } else {
        assert pending - {trade.id} == pending;
      }
      if willing {
        StillWilling();
      }
    }

    lemma WillingChain()
      requires Willing() && ledger.predecessor.Some?
      ensures Addressable(ledger)
    {
      hide OnTape, RawTruthful, RawCooperates;
      WillingFacts(calls);
    }

    /** The next request is answered with a page of the tape. */
    lemma WillingPage(target: nat)
      requires Willing() && ledger.predecessor.Some? && NextId(ledger) <= target
      requires Within(tape, target, ledger.v.cut + MINUTE)
      ensures Addressable(ledger)
      ensures var page := venue.history(calls + 1, NextId(ledger));
              page.Ok? && page.value != [] && IsPage(tape, NextId(ledger), page.value)
    {
      hide OnTape, RawTruthful, RawCooperates, Within, IsPage;
      WillingFacts(calls);
      ToCome(tape, ledger.start, first, target, ledger.v.cut + MINUTE);
      RawHistory(venue, host, limits, tape, first, ledger.start, truth, calls + 1, NextId(ledger));
    }

    /** A print of such a page is the tape's, and so is a buffered copy of it. */
    lemma WillingPrint(page: seq<Trade>, from: nat, i: nat)
      requires Willing() && IsPage(tape, from, page) && i < |page|
      ensures OnTapePrint(tape, page[i]) && page[i].id == from + i
      ensures page[i].id in pending ==> pending[page[i].id] == page[i]
    {
      hide OnTape, RawCooperates;
      PageAt(tape, from, page, i);
      if page[i].id in pending {
        SamePrint(tape, pending[page[i].id], page[i]);
      }
    }

    /** A buffered print of the open minute is ahead of the journal, and so is the gap before it. */
    lemma WillingHead(id: nat)
      requires Valid() && Willing() && id in pending && pending[id].ts < ledger.v.cut + MINUTE
      ensures Addressable(ledger) && ledger.predecessor.Some? && NextId(ledger) <= id && OnTapePrint(tape, pending[id])
      ensures id > 0 && Within(tape, id - 1, ledger.v.cut + MINUTE)
    {
      hide OnTape, RawTruthful, RawCooperates, Journaled, Proven, Open, TotalBytes, Adapted, Within, OnTapePrint;
      WillingFacts(calls);
      PrintWithin(tape, ledger.start, first, pending[id], ledger.v.cut + MINUTE);
      EarlierWithin(tape, id, id - 1, ledger.v.cut + MINUTE);
    }

    /** Emits from history, page by page, through a target ID. */
    method HealTo(target: nat) returns (r: Result<()>)
      requires Valid()
      modifies this`ledger, this`front, this`calls, this`aggregate, this`pending, this`pendingBytes
      ensures Sound() && ledger.start == old(ledger).start
      ensures r.Ok? ==> Valid() && target < NextId(ledger) && ledger.v.cut == old(ledger).v.cut
                        && (forall id :: id in old(pending) && id > target ==>
                          id in pending && pending[id] == old(pending)[id])
                        && pending.Keys <= old(pending).Keys && Keeps(old(ledger), old(pending), ledger, pending)
                        && ledger.predecessor == old(ledger).predecessor
      ensures old(Willing()) && old(ledger).predecessor.Some? && Within(tape, target, old(ledger).v.cut + MINUTE) ==>
                r.Ok? && Willing()
    {
      hide Journaled, Proven, Open, TotalBytes, IsHistory, Addressable, NextId, Keeps, Willing, RawTruthful,
           RawCooperates, OnTapePrint, OnTape, Within, IsPage;
      ghost var willing := Willing() && ledger.predecessor.Some? && Within(tape, target, ledger.v.cut + MINUTE);
      if willing {
        WillingChain();
      }
      KeepsMore(ledger, pending, pending);
      if !Addressable(ledger) {
        return Err(20);
      }
      while NextId(ledger) <= target
        invariant Valid() && ledger.start == old(ledger).start && ledger.v.cut == old(ledger).v.cut
        invariant forall id :: id in old(pending) && id > target ==> id in pending && pending[id] == old(pending)[id]
        invariant pending.Keys <= old(pending).Keys && Keeps(old(ledger), old(pending), ledger, pending)
        invariant ledger.predecessor == old(ledger).predecessor && (willing ==> Willing())
        decreases target + 1 - NextId(ledger)
      {
        if willing {
          WillingPage(target);
        }
        if !Addressable(ledger) {
          return Err(20);
        }
        calls := calls + 1;
        ghost var from := NextId(ledger);
        var page :- venue.history(calls, NextId(ledger));
        var i := 0;
        while i < |page| && page[i].id <= target
          invariant Valid() && ledger.start == old(ledger).start && ledger.v.cut == old(ledger).v.cut && i <= |page|
          invariant NextId(ledger) == from + i
          invariant forall id :: id in old(pending) && id > target ==> id in pending && pending[id] == old(pending)[id]
          invariant pending.Keys <= old(pending).Keys && Keeps(old(ledger), old(pending), ledger, pending)
          invariant ledger.predecessor == old(ledger).predecessor && (willing ==> Willing())
        {
          if willing {
            WillingPrint(page, from, i);
            StillWithin(tape, target, ledger.v.cut + MINUTE, page[i]);
          }
          if page[i].id in pending && pending[page[i].id] != page[i] {
            return Err(21);
          }
          ghost var before, held := ledger, pending;
          var _ :- EmitTrade(page[i]);
          KeepsOn(old(ledger), old(pending), before, held, ledger, pending);
          i := i + 1;
        }
        if willing {
          PageAt(tape, from, page, 0);
        }
        if i == 0 {
          return Err(20);
        }
      }
      return Ok(());
    }

    /** The next buffered print, if any, belongs to a later minute. */
    ghost predicate Drained()
      reads `ledger, `pending
    {
      pending == map[] || pending[Least(pending.Keys)].ts >= ledger.v.cut + MINUTE
    }

    /** Emits buffered prints of the open minute, healing every gap before them. */
    method Drain() returns (r: Result<()>)
      requires Valid()
      modifies this`ledger, this`front, this`calls, this`aggregate, this`pending, this`pendingBytes
      ensures Sound() && ledger.start == old(ledger).start
      ensures r.Ok? ==> Valid() && Drained() && ledger.v.cut == old(ledger).v.cut
                        && Keeps(old(ledger), old(pending), ledger, pending)
      ensures old(Willing()) ==> r.Ok? && Willing()
    {
      hide Journaled, Proven, Open, TotalBytes, Adapted, Addressable, NextId, Keeps, Willing, RawTruthful,
           RawCooperates, OnTapePrint, OnTape, Within;
      KeepsMore(ledger, pending, pending);
      ghost var willing := Willing();
      while pending != map[]
        invariant willing ==> Willing()
        invariant Valid() && ledger.start == old(ledger).start && ledger.v.cut == old(ledger).v.cut
        invariant Keeps(old(ledger), old(pending), ledger, pending)
        decreases |pending.Keys|
      {
        var head := Least(pending.Keys);
        var trade := pending[head];
        if trade.ts >= ledger.v.cut + MINUTE {
          return Ok(());
        }
        if willing {
          WillingHead(head);
        }
        if !Addressable(ledger) {
          return Err(20);
        }
        if trade.id < NextId(ledger) {
          return Err(21);
        }
        ghost var before, held := ledger, pending;
        if trade.id > NextId(ledger) {
          var _ :- HealTo(trade.id - 1);
          KeepsOn(old(ledger), old(pending), before, held, ledger, pending);
          if willing {
            WillingHead(head);
          }
        }
        SubsetSize(pending.Keys, held.Keys);
        assert (pending - {head}).Keys == pending.Keys - {head};
        before, held := ledger, pending;
        var _ :- EmitTrade(trade);
        KeepsOn(old(ledger), old(pending), before, held, ledger, pending);
      }
      return Ok(());
    }

    /** Closes the open minute with a kline that is exactly its prints. */
    method Close(minute: int, kline: Kline, ids: bool) returns (r: Result<()>)
      requires Valid() && minute + MINUTE <= watermark
      modifies this`ledger, this`front, this`calls, this`aggregate, this`closes
      ensures Sound() && ledger.start == old(ledger).start
      ensures r.Ok? ==> Valid() && minute == old(ledger).v.cut && ledger.v.cut == minute + MINUTE
                        && closes == old(closes)[minute := Closure(kline, ids)]
                        && NextId(ledger) == NextId(old(ledger)) && Keeps(old(ledger), pending, ledger, pending)
                        && ledger.predecessor == old(ledger).predecessor
      ensures (old(Willing()) && old(ledger).predecessor.Some? && minute == old(ledger).v.cut
               && old(Emptied(tape, ledger)) && TrueRow(tape, old(ledger).start, minute, truth, kline, ids)) ==>
                r.Ok? && Willing()
    {
      hide Journaled, Proven, Open, TotalBytes, Adapted, Reconcile, Keeps, Willing, RawTruthful, RawCooperates, OnTape,
           Emptied, TrueRow, OnTapePrint;
      ghost var willing := Willing() && ledger.predecessor.Some? && minute == ledger.v.cut && Emptied(tape, ledger)
        && TrueRow(tape, ledger.start, minute, truth, kline, ids);
      if willing {
        WillingClose(kline, ids);
      }
      var _ :- Reconcile(aggregate, kline, ids);
      var line := TimeCut(minute + MINUTE);
      if Staged(ledger, line, Some(kline.bar)).Ok? {
        Moves(ledger, line, Some(kline.bar));
        assert minute == ledger.v.cut;
        CutCloses(ledger, aggregate, closes, kline, ids);
        KeepsStaged(ledger, pending, line, Some(kline.bar));
      }
      hide Staged;
      ghost var before := ledger;
      r := Emit(line, Some(kline.bar));
      if ledger != before {
        closes := closes[minute := Closure(kline, ids)];
      }
      if r.Err? {
        return;
      }
      aggregate := EMPTY;
      if willing {
        StillWilling();
      }
    }

    /** The true kline of an emptied minute closes it. */
    lemma WillingClose(kline: Kline, ids: bool)
      requires Valid() && Willing() && ledger.predecessor.Some? && Emptied(tape, ledger)
      requires TrueRow(tape, ledger.start, ledger.v.cut, truth, kline, ids)
      ensures honest && RawCooperates(venue, host, limits, tape, first, ledger.start, truth)
      ensures !host.stops(calls) && !host.publishFails(calls)
      ensures Reconcile(aggregate, kline, ids).Ok?
      ensures var staged := Staged(ledger, TimeCut(ledger.v.cut + MINUTE), Some(kline.bar));
              staged.Ok? && RawTruthful(staged.value, pending, tape, first, truth)
    {
      hide Journaled, Proven, Open, TotalBytes, Adapted, Reconcile, RawTruthful, RawCooperates, OnTape, Emptied,
           Addressable, NextId, OnTapePrint, Staged, Anchored;
      WillingFacts(calls);
      RawKline(venue, host, limits, tape, first, ledger.start, truth, calls, ledger.v.cut, ledger.v.cut + MINUTE);
      RowProves(truth(ledger.v.cut), kline, ids, MinuteOf(tape[first..], ledger.v.cut));
      RawCut(tape, first, ledger, aggregate, pending, truth, kline, ids);
    }

    lemma WillingEmpties(fence: Trade)
      requires Willing() && OnTapePrint(tape, fence) && fence.id == NextId(ledger) && fence.ts >= ledger.v.cut + MINUTE
      ensures Emptied(tape, ledger)
    {
      hide OnTape, RawCooperates, Emptied;
      FenceEmpties(tape, first, ledger, fence);
    }

    /** The fence is still to come, so the next request is answered. */
    lemma WillingToFence()
      requires Valid() && Willing() && ledger.predecessor.Some? && tape != []
      requires ledger.v.cut + MINUTE <= tape[|tape| - 1].ts
      ensures Addressable(ledger)
      ensures var page := venue.history(calls + 1, NextId(ledger));
              page.Ok? && page.value != [] && IsPage(tape, NextId(ledger), page.value)
    {
      hide OnTape, RawTruthful, RawCooperates, Journaled, Proven, Open, TotalBytes, Adapted, IsPage;
      WillingFacts(calls);
      FenceAhead(tape, first, ledger);
      RawHistory(venue, host, limits, tape, first, ledger.start, truth, calls + 1, NextId(ledger));
    }

    /** Emits history up to the first print of a later minute, the fence. */
    method EmitToFence(minute: int) returns (r: Result<Trade>)
      requires Valid() && minute == ledger.v.cut
      modifies this`ledger, this`front, this`calls, this`aggregate, this`pending, this`pendingBytes
      ensures Sound() && ledger.start == old(ledger).start
      ensures r.Ok? ==> Valid() && ledger.v.cut == minute && r.value.ts >= minute + MINUTE
                        && r.value.id == NextId(ledger) && Keeps(old(ledger), old(pending), ledger, pending)
                        && ledger.predecessor == old(ledger).predecessor
      ensures (old(Willing()) && old(ledger).predecessor.Some? && tape != []
               && minute + MINUTE <= tape[|tape| - 1].ts) ==>
                r.Ok? && Willing() && OnTapePrint(tape, r.value) && Emptied(tape, ledger)
    {
      hide Journaled, Proven, Open, TotalBytes, IsHistory, Addressable, NextId, Keeps, Willing, RawTruthful,
           RawCooperates, OnTapePrint, OnTape, IsPage, Emptied;
      ghost var willing := Willing() && ledger.predecessor.Some? && tape != []
        && minute + MINUTE <= tape[|tape| - 1].ts;
      KeepsMore(ledger, pending, pending);
      while true
        invariant Valid() && ledger.start == old(ledger).start && ledger.v.cut == minute
        invariant Keeps(old(ledger), old(pending), ledger, pending)
        invariant ledger.predecessor == old(ledger).predecessor && (willing ==> Willing())
        decreases MAX_U64 + 1 - NextId(ledger)
      {
        if willing {
          WillingToFence();
        }
        if !Addressable(ledger) {
          return Err(20);
        }
        AddressableFits(ledger);
        calls := calls + 1;
        ghost var from := NextId(ledger);
        HistoryStarts(venue, calls, from);
        var page :- venue.history(calls, NextId(ledger));
        var i := 0;
        while i < |page|
          invariant Valid() && ledger.start == old(ledger).start && ledger.v.cut == minute && i <= |page|
          invariant NextId(ledger) == from + i && Keeps(old(ledger), old(pending), ledger, pending)
          invariant ledger.predecessor == old(ledger).predecessor && (willing ==> Willing())
        {
          if willing {
            WillingPrint(page, from, i);
          }
          if page[i].id in pending && pending[page[i].id] != page[i] {
            return Err(21);
          }
          if page[i].ts >= minute + MINUTE {
            HistoryAt(page, from, i);
            if willing {
              WillingEmpties(page[i]);
            }
            return Ok(page[i]);
          }
          ghost var before, held := ledger, pending;
          var _ :- EmitTrade(page[i]);
          KeepsOn(old(ledger), old(pending), before, held, ledger, pending);
          i := i + 1;
        }
      }
    }

    /** Closes a minute whose own kline was missed, on a later watermark, the fence and REST count and OHLCV. */
    method HistoricalMinute() returns (r: Result<()>)
      requires Valid()
      modifies this`ledger, this`front, this`calls, this`aggregate, this`pending, this`pendingBytes, this`closes
      ensures Sound() && ledger.start == old(ledger).start
      ensures r.Ok? ==> Valid() && ledger.v.cut == old(ledger).v.cut + MINUTE
                        && Keeps(old(ledger), old(pending), ledger, pending)
      ensures r.Ok? && ledger.start <= ledger.v.cut ==>
                NextId(ledger) in pending && pending[NextId(ledger)].ts >= ledger.v.cut
      ensures (old(Willing()) && old(ledger).v.cut + MINUTE <= watermark && tape != []
               && Complete(tape, ledger.start, old(ledger).v.cut)) ==> r.Ok? && Willing()
    {
      hide Journaled, Proven, Open, TotalBytes, Adapted, Addressable, NextId, Keeps, Willing, RawTruthful,
           RawCooperates, OnTapePrint, OnTape, Emptied, Complete;
      ghost var start, buffer := ledger, pending;
      ghost var willing := Willing() && ledger.v.cut + MINUTE <= watermark && tape != []
        && Complete(tape, ledger.start, ledger.v.cut);
      KeepsMore(ledger, pending, pending);
      if ledger.v.cut + MINUTE > watermark {
        return Err(20);
      }
      var _ :- AnchorFirst();
      var minute := ledger.v.cut;
      ghost var anchored := ledger;
      if willing {
        IsComplete(tape, ledger.start, minute);
      }
      var fence :- EmitToFence(minute);
      KeepsOn(start, buffer, anchored, buffer, ledger, pending);
      if willing {
        WillingFence();
      }
      if aggregate.count == 0 || fence.id != NextId(ledger) || fence.id != aggregate.last + 1 {
        return Err(20);
      }
      ghost var filled, held := ledger, pending;
      r := CloseBehind(fence);
      if r.Ok? {
        KeepsOn(start, buffer, filled, held, ledger, pending);
      }
    }

    /** Closes the open minute behind its fence with the venue's REST row. */
    method CloseBehind(fence: Trade) returns (r: Result<()>)
      requires Valid() && ledger.v.cut + MINUTE <= watermark
      requires fence.id == NextId(ledger) && fence.ts >= ledger.v.cut + MINUTE
      modifies this`ledger, this`front, this`calls, this`aggregate, this`pending, this`pendingBytes, this`closes
      ensures Sound() && ledger.start == old(ledger).start
      ensures r.Ok? ==> Valid() && ledger.v.cut == old(ledger).v.cut + MINUTE
                        && Keeps(old(ledger), old(pending), ledger, pending)
      ensures r.Ok? && ledger.start <= ledger.v.cut ==>
                NextId(ledger) in pending && pending[NextId(ledger)].ts >= ledger.v.cut
      ensures (old(Willing()) && old(ledger).predecessor.Some? && OnTapePrint(tape, fence) && old(Emptied(tape, ledger))
               && tape != [] && Complete(tape, ledger.start, old(ledger).v.cut)) ==> r.Ok? && Willing()
    {
      hide Journaled, Proven, Open, TotalBytes, Adapted, NextId, Keeps, Taken, ExpiredId, Willing, OnTapePrint, Emptied,
           TrueRow, Complete;
      ghost var start, buffer := ledger, pending;
      ghost var willing := Willing() && ledger.predecessor.Some? && OnTapePrint(tape, fence) && Emptied(tape, ledger)
        && tape != [] && Complete(tape, ledger.start, ledger.v.cut);
      var minute := ledger.v.cut;
      var _ :- Put(fence);
      ghost var held := pending;
      calls := calls + 1;
      KlinesStart(venue, calls, minute, minute + MINUTE);
      if willing {
        WillingRow();
      }
      var rows :- venue.klines(calls, minute, minute + MINUTE);
      r := Close(minute, rows[0], false);
      if r.Ok? {
        KeepsOn(start, buffer, start, held, ledger, pending);
      }
    }

    /** The REST row of a complete open minute is true. */
    lemma WillingRow()
      requires Willing() && tape != [] && Complete(tape, ledger.start, ledger.v.cut)
      ensures var rows := venue.klines(calls, ledger.v.cut, ledger.v.cut + MINUTE);
              rows.Ok? && rows.value != [] && TrueRow(tape, ledger.start, ledger.v.cut, truth, rows.value[0], false)
    {
      hide RawTruthful, RawCooperates, TrueRow, Complete, OnTape;
      WillingFacts(calls);
      RawKline(venue, host, limits, tape, first, ledger.start, truth, calls, ledger.v.cut, ledger.v.cut + MINUTE);
      IsTrueRow(tape, ledger.start, ledger.v.cut, truth,
                venue.klines(calls, ledger.v.cut, ledger.v.cut + MINUTE).value[0]);
    }

    /** Behind the fence of a complete minute the aggregate holds the minute's prints. */
    lemma WillingFence()
      requires Valid() && Willing() && ledger.predecessor.Some? && Emptied(tape, ledger)
      requires tape != [] && Complete(tape, ledger.start, ledger.v.cut)
      ensures aggregate.count > 0 && aggregate.last + 1 == NextId(ledger)
    {
      hide Journaled, Proven, Open, TotalBytes, Adapted, RawTruthful, RawCooperates, OnTape, Emptied, OnTapePrint;
      WillingFacts(calls);
      RawKline(venue, host, limits, tape, first, ledger.start, truth, calls, ledger.v.cut, ledger.v.cut + MINUTE);
      FenceFollows(tape, first, ledger, aggregate, truth(ledger.v.cut));
    }

    /** Takes a kline: closes every minute through it, or holds it against a minute that is already closed. */
    method Closed(kline: Kline) returns (r: Result<()>)
      requires Valid() && kline.bar.ts % MINUTE == 0
      modifies this`ledger, this`front, this`calls, this`aggregate, this`pending, this`pendingBytes, this`closes,
               this`watermark
      ensures Sound() && ledger.start == old(ledger).start
      ensures r.Ok? ==> Valid() && Keeps(old(ledger), old(pending), ledger, pending)
      ensures watermark == if kline.confirmed then Later(old(watermark), kline.bar.ts + MINUTE) else old(watermark)
      ensures !kline.confirmed || kline.bar.ts < ledger.start ==> r.Ok?
      ensures !kline.confirmed || kline.bar.ts < ledger.start || kline.bar.ts < old(ledger).v.cut ==>
                ledger == old(ledger) && pending == old(pending) && aggregate == old(aggregate) && closes == old(closes)
      ensures kline.confirmed && ledger.start <= kline.bar.ts < old(ledger).v.cut ==>
                r == old(Verdict(kline))
      ensures var minute := kline.bar.ts;
              r.Ok? && kline.confirmed && minute >= ledger.start && minute >= old(ledger).v.cut ==>
                minute in closes && closes[minute] == Closure(kline, true) && Drained()
      ensures (old(Willing()) && (kline.confirmed && kline.bar.ts >= ledger.start ==>
                                    tape != [] && Complete(tape, ledger.start, kline.bar.ts)
                                    && kline == truth(kline.bar.ts))) ==> r.Ok? && Willing()
    {
      hide Journaled, Proven, Open, TotalBytes, Adapted, Addressable, NextId, Proves, Between, PrintsIn, Summarizes,
           Run, Keeps, Drained, Verdict, Willing, Complete;
      ghost var willing := Willing() && (kline.confirmed && kline.bar.ts >= ledger.start ==>
                                           tape != [] && Complete(tape, ledger.start, kline.bar.ts)
                                           && kline == truth(kline.bar.ts));
      KeepsMore(ledger, pending, pending);
      if !kline.confirmed {
        return Ok(());
      }
      var minute := kline.bar.ts;
      if watermark < minute + MINUTE {
        watermark := minute + MINUTE;
      }
      if minute < ledger.start {
        return Ok(());
      }
      if minute < ledger.v.cut {
        r := HoldAgainst(kline);
        return;
      }
      r := CloseThrough(kline);
    }

    /** What a confirmed kline of a closed minute is answered with: it must be the retained proof, if there is one, and
        exactly the minute's journal prints, unless the minute has expired. */
    ghost function Verdict(kline: Kline): Result<()>
      reads `ledger, `front
    {
      if ExpiredMinute(ledger.mode, front, kline.bar.ts) then Ok(())
      else if FirstProof(ledger.proofs, kline.bar.ts).Some?
        && FirstProof(ledger.proofs, kline.bar.ts).value != kline.bar
        then Err(21)
      else if Proves(kline, true, MinuteOf(Prints(ledger), kline.bar.ts)) then Ok(()) else Err(21)
    }

    method HoldAgainst(kline: Kline) returns (r: Result<()>)
      requires Valid() && kline.bar.ts % MINUTE == 0 && ledger.start <= kline.bar.ts < ledger.v.cut
      ensures r == Verdict(kline)
      ensures Willing() && kline == truth(kline.bar.ts) ==> r.Ok?
    {
      hide Journaled, Proven, Open, TotalBytes, Adapted, Proves, Between, PrintsIn, Summarizes, Run, RawTruthful,
           RawCooperates, OnTape;
      var minute := kline.bar.ts;
      if Willing() && kline == truth(minute) {
        RawDuplicate(tape, first, ledger, pending, truth, minute);
        RawKline(venue, host, limits, tape, first, ledger.start, truth, calls, minute, minute + MINUTE);
      }
      if ExpiredMinute(ledger.mode, front, minute) {
        return Ok(());
      }
      var proof := FirstProof(ledger.proofs, minute);
      if proof.Some? && proof.value != kline.bar {
        return Err(21);
      }
      PrintsAreRun(ledger, minute);
      var rebuilt := Refold(ledger.log, minute, minute + MINUTE);
      ReconcileProves(rebuilt.value, MinuteOf(Prints(ledger), minute), kline, true);
      return if Reconcile(rebuilt.value, kline, true).Ok? then Ok(()) else Err(21);
    }

    /** Closes every open minute before the kline's from history, and the kline's own by its ID range. */
    method CloseThrough(kline: Kline) returns (r: Result<()>)
      requires Valid() && kline.bar.ts % MINUTE == 0 && ledger.v.cut <= kline.bar.ts
               && kline.bar.ts + MINUTE <= watermark
      modifies this`ledger, this`front, this`calls, this`aggregate, this`pending, this`pendingBytes, this`closes
      ensures Sound() && ledger.start == old(ledger).start
      ensures r.Ok? ==> Valid() && Keeps(old(ledger), old(pending), ledger, pending)
                        && kline.bar.ts in closes && closes[kline.bar.ts] == Closure(kline, true) && Drained()
      ensures kline.bar.ts == old(ledger).v.cut && !Bounded(kline) ==> r == Err(20) && ledger == old(ledger)
      ensures (kline.bar.ts == old(ledger).v.cut && Bounded(kline) && old(ledger).predecessor.Some?
               && old(ledger).v.lastId > kline.last) ==> r == Err(21) && ledger == old(ledger)
      ensures (old(Willing()) && tape != [] && Complete(tape, ledger.start, kline.bar.ts)
               && kline == truth(kline.bar.ts)) ==> r.Ok? && Willing()
    {
      hide Journaled, Proven, Open, TotalBytes, Adapted, Addressable, NextId, Proves, Between, PrintsIn, Summarizes,
           Run, Keeps, Drained, Willing, RawTruthful, RawCooperates, OnTape, Emptied, TrueRow, Complete, Within,
           Anchored;
      ghost var start, buffer := ledger, pending;
      var minute := kline.bar.ts;
      ghost var willing := Willing() && tape != [] && Complete(tape, ledger.start, minute) && kline == truth(minute);
      KeepsMore(ledger, pending, pending);
      while ledger.v.cut < minute
        invariant Valid() && ledger.start == old(ledger).start && Keeps(start, buffer, ledger, pending)
        invariant willing ==> Willing() && ledger.v.cut <= minute
        invariant start.v.cut == minute ==> ledger == start
        decreases minute - ledger.v.cut
      {
        ghost var before, held := ledger, pending;
        if willing {
          WillingFacts(calls);
          EarlierComplete(tape, first, ledger, minute);
        }
        var _ :- HistoricalMinute();
        KeepsOn(start, buffer, before, held, ledger, pending);
      }
      ghost var before, held := ledger, pending;
      r := CloseOwn(kline);
      if r.Ok? {
        KeepsOn(start, buffer, before, held, ledger, pending);
      }
    }

    /** Closes the open minute by the kline's own ID range. */
    method CloseOwn(kline: Kline) returns (r: Result<()>)
      requires Valid() && kline.bar.ts + MINUTE <= watermark
      modifies this`ledger, this`front, this`calls, this`aggregate, this`pending, this`pendingBytes, this`closes
      ensures Sound() && ledger.start == old(ledger).start
      ensures r.Ok? ==> Valid() && Keeps(old(ledger), old(pending), ledger, pending)
                        && kline.bar.ts in closes && closes[kline.bar.ts] == Closure(kline, true) && Drained()
      ensures !Bounded(kline) ==> r == Err(20) && ledger == old(ledger) && calls == old(calls)
      ensures (Bounded(kline) && old(ledger).predecessor.Some? && old(ledger).v.lastId > kline.last) ==>
                r == Err(21) && ledger == old(ledger) && calls == old(calls)
      ensures (old(Willing()) && kline == truth(kline.bar.ts) && kline.bar.ts == old(ledger).v.cut && tape != []
               && Complete(tape, ledger.start, kline.bar.ts)) ==> r.Ok? && Willing()
    {
      hide Journaled, Proven, Open, TotalBytes, Adapted, Addressable, NextId, Proves, Between, PrintsIn, Summarizes,
           Run, Keeps, Drained, Willing, RawTruthful, RawCooperates, OnTape, Emptied, TrueRow, Complete, Within,
           Anchored, AnchorAnswer;
      ghost var start, buffer := ledger, pending;
      var minute := kline.bar.ts;
      ghost var willing := Willing() && kline == truth(minute) && minute == ledger.v.cut && tape != []
        && Complete(tape, ledger.start, minute);
      KeepsMore(ledger, pending, pending);
      if willing {
        WillingRange(kline);
      }
      if kline.count == 0 || kline.first <= 0 || kline.last < kline.first
        || kline.last - kline.first + 1 != kline.count {
        return Err(20);
      }
      var _ :- Anchor(kline.first);
      if ledger.v.lastId > kline.last {
        return Err(21);
      }
      ghost var before, held := ledger, pending;
      var _ :- HealTo(kline.last);
      KeepsOn(start, buffer, before, held, ledger, pending);
      if willing {
        WillingFacts(calls);
        KlineEmpties(tape, first, ledger, kline);
        OwnRow(tape, ledger.start, minute, truth, kline);
      }
      before, held := ledger, pending;
      var _ :- Close(minute, kline, true);
      KeepsOn(start, buffer, before, held, ledger, pending);
      before := ledger;
      r := Drain();
      if r.Ok? {
        KeepsOn(start, buffer, before, held, ledger, pending);
      }
    }

    /** The true kline's ID range is on the tape, and what was emitted of the minute lies inside it. */
    lemma WillingRange(kline: Kline)
      requires Valid() && Willing() && kline == truth(kline.bar.ts) && kline.bar.ts == ledger.v.cut
      requires tape != [] && Complete(tape, ledger.start, ledger.v.cut)
      ensures kline.count > 0 && 0 < kline.first <= kline.last && kline.last - kline.first + 1 == kline.count
      ensures first < |tape| && (ledger.predecessor.None? ==> kline.first == tape[first].id)
      ensures ledger.v.lastId <= kline.last && Within(tape, kline.last, ledger.v.cut + MINUTE)
      ensures Proves(kline, true, MinuteOf(tape[first..], ledger.v.cut))
    {
      hide Journaled, Proven, Open, TotalBytes, Adapted, Proves, RawTruthful, RawCooperates, OnTape, Within, Between;
      WillingFacts(calls);
      RawKline(venue, host, limits, tape, first, ledger.start, truth, calls, ledger.v.cut, ledger.v.cut + MINUTE);
      KlineWithin(tape, ledger.start, first, ledger.v.cut, kline);
      NotBeyond(tape, first, ledger, kline);
      if ledger.predecessor.None? {
        RawAnchor(tape, first, ledger, pending, truth);
        StartsFirst(tape, ledger.start, first, kline);
      }
    }

    /** One venue event: whatever it says, every `time` line stays proven. */
    method Stage(event: Event) returns (r: Result<()>)
      requires Valid() && (event.Candle? ==> event.kline.bar.ts % MINUTE == 0)
      modifies this
      ensures Sound()
      ensures r.Ok? ==> Valid() && Keeps(old(ledger), old(pending), ledger, pending)
      ensures r.Ok? && event.Print? && event.trade.ts >= old(ledger).start ==>
                Drained() && (Taken(ledger, pending, event.trade) || ExpiredId(old(front), event.trade.id))
      ensures watermark == if event.Candle? && event.kline.confirmed
                           then Later(old(watermark), event.kline.bar.ts + MINUTE) else old(watermark)
      ensures (if event.Candle? then !event.kline.confirmed || event.kline.bar.ts < old(ledger).start
               else event.trade.ts < old(ledger).start) ==>
                r.Ok? && ledger == old(ledger) && pending == old(pending) && aggregate == old(aggregate)
                && closes == old(closes)
      ensures event.Candle? && event.kline.confirmed && old(ledger).start <= event.kline.bar.ts < old(ledger).v.cut ==>
                r == old(Verdict(event.kline)) && ledger == old(ledger) && pending == old(pending)
      ensures r.Ok? && event.Candle? && event.kline.confirmed && event.kline.bar.ts >= old(ledger).start
                && event.kline.bar.ts >= old(ledger).v.cut ==>
                event.kline.bar.ts in closes && closes[event.kline.bar.ts] == Closure(event.kline, true) && Drained()
      ensures (old(Willing()) && (event.Print? ==> OnTapePrint(tape, event.trade))
               && (event.Candle? && event.kline.confirmed && event.kline.bar.ts >= old(ledger).start ==>
                     tape != [] && Complete(tape, old(ledger).start, event.kline.bar.ts)
                     && event.kline == truth(event.kline.bar.ts))) ==> r.Ok? && Willing()
    {
      hide Journaled, Proven, Open, TotalBytes, Adapted, Keeps, Taken, Drained, ExpiredId, NextId, Proves, Between,
           PrintsIn, Verdict, Willing, Complete, OnTapePrint;
      ghost var start, buffer := ledger, pending;
      KeepsMore(ledger, pending, pending);
      if event.Candle? {
        r := Closed(event.kline);
        return;
      }
      if event.trade.ts < ledger.start {
        return Ok(());
      }
      var _ :- AnchorFirst();
      ghost var anchored := ledger;
      var _ :- Put(event.trade);
      ghost var held := pending;
      KeepsOn(start, buffer, anchored, buffer, anchored, held);
      r := Drain();
      if r.Ok? {
        KeepsOn(start, buffer, anchored, held, ledger, pending);
        if Taken(anchored, held, event.trade) {
          TakenStays(anchored, held, ledger, pending, event.trade);
        }
      }
    }
  }

  /** A session over a recovered journal, read from an index that skips no print of the open minute, has the
      aggregate of one that never stopped. */
  method Restart(venue: RawVenue, host: Host, limits: Limits, ledger: Ledger, front: Segment, from: nat,
                 ghost tape: seq<Trade>, ghost first: nat, ghost honest: bool, ghost truth: int -> Kline,
                 ghost closes: map<int, Closure>)
    returns (r: Result<FeedSession>)
    requires NothingOpen(ledger, from) && Adapted(venue) && Proven(ledger, closes) && ledger.mode.TickMode()
    requires Fold(ledger.start, ledger.predecessor, ledger.mode, ledger.log).Ok?
             && SamePosition(Fold(ledger.start, ledger.predecessor, ledger.mode, ledger.log).value, ledger.v)
    ensures r.Ok? && fresh(r.value) && r.value.Valid() && r.value.ledger == ledger
    ensures forall a :: Open(ledger, a) ==> r.value.aggregate == a
    ensures (honest && RawCooperates(venue, host, limits, tape, first, ledger.start, truth)
             && RawTruthful(ledger, map[], tape, first, truth)) ==> r.value.Willing()
  {
    hide Adapted, Proven, PrintsIn, Between, Fold, Summarizes, Run, RawCooperates, RawTruthful;
    FoldJournaled(ledger);
    SinceCut(ledger);
    OpenPrintsFrom(ledger.log, from, ledger.v.cut, MAX_I64 + 1);
    var aggregate := Refold(ledger.log[from..], ledger.v.cut, MAX_I64 + 1);
    var session := new FeedSession(venue, host, limits, ledger, front, aggregate.value, tape, first, honest, truth,
                                   closes);
    forall a | Open(ledger, a)
      ensures a == aggregate.value
    {
      RestartAggregate(ledger, a, aggregate.value);
    }
    return Ok(session);
  }

  lemma AddressableFits(l: Ledger)
    ensures Addressable(l) ==> NextId(l) <= MAX_U64
  {
  }

  lemma HistoryStarts(venue: RawVenue, call: nat, from: nat)
    requires Adapted(venue)
    ensures venue.history(call, from).Ok? ==>
            venue.history(call, from).value != [] && IsHistory(venue.history(call, from).value, from)
  {
  }

  lemma HistoryAt(page: seq<Trade>, from: nat, i: nat)
    requires IsHistory(page, from) && i < |page|
    ensures page[i].id == from + i
  {
  }

  lemma KlinesStart(venue: RawVenue, call: nat, lo: int, hi: int)
    requires Adapted(venue)
    ensures venue.klines(call, lo, hi).Ok? ==> venue.klines(call, lo, hi).value != []
  {
  }

  lemma PrintsAreRun(l: Ledger, minute: int)
    requires Journaled(l)
    ensures Run(MinuteOf(Prints(l), minute))
  {
    MinuteIsARun(Prints(l), minute);
  }

  lemma {:induction false} SubsetSize(a: set<nat>, b: set<nat>)
    requires a <= b
    ensures |a| <= |b|
  {
    if a != {} {
      var x :| x in a;
      SubsetSize(a - {x}, b - {x});
    }
  }

  lemma FirstOfPage(venue: RawVenue, call: nat, from: nat)
    requires Adapted(venue)
    ensures venue.history(call, from).Ok? ==> venue.history(call, from).value != []
  {
  }
}
