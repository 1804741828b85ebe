/** What lets a raw-tick session go on: a market with a print in every minute, whose REST answers and klines are true.
    */
module RawCooperation {
  import opened Feed
  import JournalFormat
  import opened Tape
  import opened Aggregates
  import opened Ledgers
  import opened Cooperation
  import opened KlineRange

  /** The venue's REST answers as functions of the calls before: its adapter returns no empty page and no page with a
      hole. */
  datatype RawVenue = RawVenue(history: (nat, nat) -> Result<seq<Trade>>, klines: (nat, int, int) -> Result<seq<Kline>>,
                               firstId: (nat, int) -> Result<nat>)

  ghost predicate Adapted(venue: RawVenue) {
    && (forall call, from :: venue.history(call, from).Ok? ==> IsHistory(venue.history(call, from).value, from))
    && (forall call, lo, hi :: venue.klines(call, lo, hi).Ok? ==>
                                 venue.klines(call, lo, hi).value != []
                                   && venue.klines(call, lo, hi).value[0].bar.ts == lo)
  }

  ghost predicate IsHistory(page: seq<Trade>, from: nat) {
    page != [] && forall i :: 0 <= i < |page| ==> page[i].Valid() && page[i].id == from + i
  }

  /** A whole minute since the start that the tape is known to be past. */
  predicate Complete(tape: seq<Trade>, start: int, minute: int)
    requires tape != []
  {
    start <= minute && minute % MINUTE == 0 && minute + MINUTE <= tape[|tape| - 1].ts
  }

  /** Every complete minute has prints, and its kline is exactly those. */
  ghost predicate TrueKlines(tape: seq<Trade>, first: nat, start: int, truth: int -> Kline)
    requires first < |tape|
  {
    forall minute :: Complete(tape, start, minute) ==>
                       && truth(minute).bar.ts == minute && truth(minute).bar.Valid()
                       && Proves(truth(minute), true, MinuteOf(tape[first..], minute))
  }

  /** A REST row has no ID range, but the count and the bar. */
  predicate SameRow(row: Kline, kline: Kline) { row.bar == kline.bar && row.count == kline.count }

  ghost predicate RawAnswers(venue: RawVenue, tape: seq<Trade>, first: nat, start: int, truth: int -> Kline)
    requires first < |tape|
  {
    && (forall call, from :: 0 <= from - tape[0].id < |tape| ==>
                               && venue.history(call, from).Ok?
                               && IsPage(tape, from, venue.history(call, from).value))
    && (forall call :: venue.firstId(call, start) == Ok(tape[first].id))
    && forall call, lo, hi :: Complete(tape, start, lo) && lo < hi ==>
                                venue.klines(call, lo, hi).Ok? && venue.klines(call, lo, hi).value != []
                                && SameRow(venue.klines(call, lo, hi).value[0], truth(lo))
  }

  ghost predicate RawCooperates(venue: RawVenue, host: Host, limits: Limits, tape: seq<Trade>, first: nat, start: int,
                                truth: int -> Kline) {
    && (forall call :: !host.stops(call) && !host.publishFails(call))
    && Adapted(venue) && Anchored(tape, start, first) && tape[|tape| - 1].id < MAX_U64
    && RawAnswers(venue, tape, first, start, truth) && TrueKlines(tape, first, start, truth)
    && SumBytes(limits.bytesOf, tape) <= limits.maxQueueBytes
  }

  /** What the session holds is the tape's: its log, its buffer ahead of it, and its proofs. */
  ghost predicate RawTruthful(l: Ledger, pending: map<nat, Trade>, tape: seq<Trade>, first: nat, truth: int -> Kline) {
    && OnTape(tape, first, l) && Held(l, pending, true, tape)
    && (l.predecessor == None ==> l.v.index == 0)
    && forall i :: 0 <= i < |l.proofs| ==> l.proofs[i] == truth(l.proofs[i].ts).bar
  }

  /** Every print of the tape that is still to come is of a later minute. */
  ghost predicate Emptied(tape: seq<Trade>, l: Ledger) {
    forall t :: OnTapePrint(tape, t) && NextId(l) <= t.id ==> l.v.cut + MINUTE <= t.ts
  }

  /** The tape reaches this ID, and every print up to it is earlier than the bound. */
  ghost predicate Within(tape: seq<Trade>, target: nat, bound: int) {
    && tape != [] && target <= tape[|tape| - 1].id
    && forall t :: OnTapePrint(tape, t) && t.id <= target ==> t.ts < bound
  }

  /** The true kline of the open minute, or its REST row. */
  ghost predicate TrueRow(tape: seq<Trade>, start: int, minute: int, truth: int -> Kline, kline: Kline, ids: bool) {
    tape != [] && Complete(tape, start, minute)
      && (if ids then kline == truth(minute) else SameRow(kline, truth(minute)))
  }

  // ---------- One answer at a time ----------

  lemma RawFacts(venue: RawVenue, host: Host, limits: Limits, tape: seq<Trade>, first: nat, start: int,
                 truth: int -> Kline, call: nat)
    requires RawCooperates(venue, host, limits, tape, first, start, truth)
    ensures !host.stops(call) && !host.publishFails(call)
    ensures Anchored(tape, start, first) && tape[|tape| - 1].id < MAX_U64
    ensures SumBytes(limits.bytesOf, tape) <= limits.maxQueueBytes
    ensures venue.firstId(call, start) == Ok(tape[first].id)
  {
  }

  lemma RawHistory(venue: RawVenue, host: Host, limits: Limits, tape: seq<Trade>, first: nat, start: int,
                   truth: int -> Kline, call: nat, from: nat)
    requires RawCooperates(venue, host, limits, tape, first, start, truth)
    requires tape != [] && 0 <= from - tape[0].id < |tape|
    ensures var page := venue.history(call, from);
            page.Ok? && page.value != [] && IsPage(tape, from, page.value)
  {
  }

  lemma RawKline(venue: RawVenue, host: Host, limits: Limits, tape: seq<Trade>, first: nat, start: int,
                 truth: int -> Kline, call: nat, minute: int, hi: int)
    requires RawCooperates(venue, host, limits, tape, first, start, truth)
    requires tape != [] && Complete(tape, start, minute) && minute < hi
    ensures first < |tape| && truth(minute).bar.ts == minute && truth(minute).bar.Valid()
    ensures Proves(truth(minute), true, MinuteOf(tape[first..], minute))
    ensures var rows := venue.klines(call, minute, hi);
            rows.Ok? && rows.value != [] && SameRow(rows.value[0], truth(minute))
  {
  }

  // ---------- The next message is accepted ----------

  /** The chain can go on, and does as long as a print of the tape is to come. */
  lemma RawChain(tape: seq<Trade>, first: nat, l: Ledger, pending: map<nat, Trade>, truth: int -> Kline)
    requires RawTruthful(l, pending, tape, first, truth) && l.predecessor.Some? && tape[|tape| - 1].id < MAX_U64
    ensures tape != [] && Addressable(l) && tape[0].id < NextId(l) <= tape[|tape| - 1].id + 1
  {
    ChainGoesOn(tape, first, l);
  }

  lemma RawTick(tape: seq<Trade>, first: nat, l: Ledger, pending: map<nat, Trade>, truth: int -> Kline, t: Trade)
    requires RawTruthful(l, pending, tape, first, truth) && l.predecessor.Some? && Addressable(l)
    requires OnTapePrint(tape, t) && t.id == NextId(l) && t.ts < l.v.cut + MINUTE
    ensures l.v.lastTickTs <= t.ts && l.v.cut <= t.ts && Staged(l, Tick(t), None).Ok?
    ensures t.id in pending ==> pending[t.id] == t
    ensures RawTruthful(Staged(l, Tick(t), None).value, pending - {t.id}, tape, first, truth)
  {
    hide OnTape, OnTapePrint, Staged, Addressable;
    TickAccepted(tape, first, l, t);
    HeadOfTape(tape, first, l, t);
    var next := Staged(l, Tick(t), None).value;
    NextStaged(tape, first, l, Tick(t), None) by {
      NextIsTick(tape, first, l, t);
    }
    Moves(l, Tick(t), None);
    HeldAfter(l, next, pending, true, tape, t.id);
    ProofsStayTrue(l, Tick(t), None, truth);
    if t.id in pending {
      SamePrint(tape, pending[t.id], t);
    }
  }

  lemma NextIsTick(tape: seq<Trade>, first: nat, l: Ledger, t: Trade)
    requires OnTape(tape, first, l) && End(tape, first, l).next < |tape| && t == tape[End(tape, first, l).next]
    requires t.ts < l.v.cut + MINUTE
    ensures Next(tape, End(tape, first, l)) == Tick(t)
  {
  }

  lemma ProofsStayTrue(l: Ledger, m: Message, proof: Option<Bar>, truth: int -> Kline)
    requires forall i :: 0 <= i < |l.proofs| ==> l.proofs[i] == truth(l.proofs[i].ts).bar
    requires Staged(l, m, proof).Ok? && (proof.Some? ==> proof.value == truth(proof.value.ts).bar)
    ensures var proofs := Staged(l, m, proof).value.proofs;
            forall i :: 0 <= i < |proofs| ==> proofs[i] == truth(proofs[i].ts).bar
  {
    var proofs := if proof.Some? then l.proofs + [proof.value] else l.proofs;
    assert forall i :: 0 <= i < |proofs| ==> proofs[i] == truth(proofs[i].ts).bar;
  }

  /** The emitted prints are the tape's, from the first on; the rest is of the open minute or later. */
  lemma EmittedSoFar(tape: seq<Trade>, first: nat, l: Ledger)
    requires OnTape(tape, first, l)
    ensures var n := End(tape, first, l).next;
            && 0 < first <= n <= |tape| && Prints(l) == tape[first..n]
            && (l.predecessor.Some? ==> NextId(l) == tape[0].id + n)
            && forall j :: n <= j < |tape| ==> tape[j].ts >= l.v.cut
  {
    PrintsAreContiguous(tape, Position(first, l.start), l.log);
    RestAfterCut(tape, l.start, first, |l.log|);
    hide Canonical, Reach;
  }

  /** A complete minute that is still open has its fence on the tape, so the chain goes on. */
  lemma FenceAhead(tape: seq<Trade>, first: nat, l: Ledger)
    requires OnTape(tape, first, l) && Journaled(l) && l.predecessor.Some?
    requires tape != [] && l.v.cut + MINUTE <= tape[|tape| - 1].ts
    ensures NextId(l) <= tape[|tape| - 1].id && Shows(tape, NextId(l))
  {
    EmittedSoFar(tape, first, l);
    var n := End(tape, first, l).next;
    hide OnTape, Run;
    assert n > first ==> Prints(l)[n - first - 1] == tape[n - 1];
  }

  /** Once every print of the open minute is emitted, its journal prints are all of the minute's. */
  lemma MinuteIsWhole(tape: seq<Trade>, first: nat, l: Ledger)
    requires OnTape(tape, first, l) && Emptied(tape, l) && l.predecessor.Some?
    ensures first <= |tape| && MinuteOf(Prints(l), l.v.cut) == MinuteOf(tape[first..], l.v.cut)
  {
    hide OnTape, Prints, Between, NextId;
    EmittedSoFar(tape, first, l);
    var n := End(tape, first, l).next;
    RestIsLater(tape, first, l);
    hide End, Emptied;
    var prints := tape[first..];
    assert prints[..n - first] == tape[first..n];
    assert forall k :: n - first <= k < |prints| ==> prints[k] == tape[first + k];
    BetweenFront(prints, l.v.cut, l.v.cut + MINUTE, n - first);
  }

  lemma RestIsLater(tape: seq<Trade>, first: nat, l: Ledger)
    requires OnTape(tape, first, l) && Emptied(tape, l) && l.predecessor.Some?
    ensures forall j :: End(tape, first, l).next <= j < |tape| ==> tape[j].ts >= l.v.cut + MINUTE
  {
    EmittedSoFar(tape, first, l);
    forall j | End(tape, first, l).next <= j < |tape|
      ensures tape[j].ts >= l.v.cut + MINUTE
    {
      IsOnTape(tape, first, l, j);
      hide OnTape;
      assert OnTapePrint(tape, tape[j]) && NextId(l) <= tape[j].id;
    }
  }

  lemma IsOnTape(tape: seq<Trade>, first: nat, l: Ledger, j: nat)
    requires OnTape(tape, first, l) && j < |tape|
    ensures OnTapePrint(tape, tape[j]) && tape[j].id == tape[0].id + j
  {
  }

  /** Behind the last print of a complete minute its kline reconciles, and its `time` line is accepted. */
  lemma RawCut(tape: seq<Trade>, first: nat, l: Ledger, a: Aggregate, pending: map<nat, Trade>, truth: int -> Kline,
               kline: Kline, ids: bool)
    requires RawTruthful(l, pending, tape, first, truth) && l.predecessor.Some? && Journaled(l) && Open(l, a)
    requires Emptied(tape, l) && tape != [] && l.v.cut + MINUTE <= tape[|tape| - 1].ts
    requires first <= |tape| && Proves(kline, ids, MinuteOf(tape[first..], l.v.cut))
    requires kline.bar == truth(l.v.cut).bar && kline.bar.ts == l.v.cut && kline.bar.Valid()
    ensures Reconcile(a, kline, ids).Ok?
    ensures Staged(l, TimeCut(l.v.cut + MINUTE), Some(kline.bar)).Ok?
    ensures RawTruthful(Staged(l, TimeCut(l.v.cut + MINUTE), Some(kline.bar)).value, pending, tape, first, truth)
  {
    hide OnTape, Staged, Proves, Summarizes, Run, Between, Reconcile, PrintsIn;
    var line := TimeCut(l.v.cut + MINUTE);
    MinuteIsWhole(tape, first, l);
    MinuteIsARun(Prints(l), l.v.cut);
    ReconcileProves(a, MinuteOf(Prints(l), l.v.cut), kline, ids);
    CutAccepted(tape, first, l, kline.bar);
    FenceAhead(tape, first, l);
    NextIsCut(tape, first, l);
    NextStaged(tape, first, l, line, Some(kline.bar));
    Moves(l, line, Some(kline.bar));
    HeldSame(l, Staged(l, line, Some(kline.bar)).value, pending, true, tape);
    ProofsStayTrue(l, line, Some(kline.bar), truth);
  }

  lemma NextIsCut(tape: seq<Trade>, first: nat, l: Ledger)
    requires OnTape(tape, first, l) && Emptied(tape, l) && l.predecessor.Some? && Shows(tape, NextId(l))
    ensures End(tape, first, l).next < |tape| && Next(tape, End(tape, first, l)) == TimeCut(l.v.cut + MINUTE)
  {
    EmittedSoFar(tape, first, l);
    IsOnTape(tape, first, l, End(tape, first, l).next);
  }

  // ---------- What a true kline says of the tape ----------

  lemma {:induction false} InRangeIsMember(prints: seq<Trade>, lo: int, hi: int, k: nat)
    requires k < |prints| && lo <= prints[k].ts < hi
    ensures prints[k] in Between(prints, lo, hi)
    decreases |prints|
  {
    if k < |prints| - 1 {
      assert prints[..|prints| - 1][k] == prints[k];
      InRangeIsMember(prints[..|prints| - 1], lo, hi, k);
    }
  }

  lemma {:induction false} MemberIsPrint(prints: seq<Trade>, lo: int, hi: int, t: Trade)
    requires t in Between(prints, lo, hi)
    ensures t in prints && lo <= t.ts < hi
  {
    if t in Between(prints[..|prints| - 1], lo, hi) {
      MemberIsPrint(prints[..|prints| - 1], lo, hi, t);
    }
  }

  lemma BoundedBy(tape: seq<Trade>, start: int, first: nat, minute: int, m: seq<Trade>, t: Trade)
    requires Anchored(tape, start, first) && m == MinuteOf(tape[first..], minute) && Run(m) && m != []
    requires OnTapePrint(tape, m[0]) && OnTapePrint(tape, m[|m| - 1]) && OnTapePrint(tape, t)
    requires minute <= m[|m| - 1].ts < minute + MINUTE && tape[first].id <= m[|m| - 1].id
    ensures t.id <= m[|m| - 1].id ==> t.ts < minute + MINUTE
    ensures m[|m| - 1].id < t.id ==> minute + MINUTE <= t.ts
    ensures tape[first].id <= t.id && minute <= t.ts ==> m[0].id <= t.id
  {
    hide Between;
    var j := t.id - tape[0].id;
    if j >= first && minute <= t.ts < minute + MINUTE {
      assert tape[first..][j - first] == t;
      InRangeIsMember(tape[first..], minute, minute + MINUTE, j - first);
      var k :| 0 <= k < |m| && m[k] == t;
    }
  }

  lemma OfTheTape(tape: seq<Trade>, start: int, first: nat, minute: int, t: Trade)
    requires Anchored(tape, start, first) && t in MinuteOf(tape[first..], minute)
    ensures OnTapePrint(tape, t) && tape[first].id <= t.id && minute <= t.ts < minute + MINUTE
  {
    MemberIsPrint(tape[first..], minute, minute + MINUTE, t);
    var i :| 0 <= i < |tape[first..]| && tape[first..][i] == t;
    assert tape[first + i] == t;
  }

  /** Its bounds are the minute's first and last print: before the one the tape is earlier, behind the other later. */
  lemma KlineBounds(tape: seq<Trade>, start: int, first: nat, minute: int, kline: Kline)
    requires Anchored(tape, start, first) && Proves(kline, true, MinuteOf(tape[first..], minute))
    ensures kline.count > 0 && 0 < kline.first <= kline.last && kline.last - kline.first + 1 == kline.count
    ensures tape[first].id <= kline.first && Shows(tape, kline.last)
    ensures forall t :: OnTapePrint(tape, t) && t.id <= kline.last ==> t.ts < minute + MINUTE
    ensures forall t :: OnTapePrint(tape, t) && kline.last < t.id ==> minute + MINUTE <= t.ts
    ensures forall t :: OnTapePrint(tape, t) && tape[first].id <= t.id && minute <= t.ts ==> kline.first <= t.id
  {
    var m := MinuteOf(tape[first..], minute);
    MinuteIsRun(tape, start, first, |tape|, minute);
    assert tape[first..|tape|] == tape[first..];
    OfTheTape(tape, start, first, minute, m[0]);
    OfTheTape(tape, start, first, minute, m[|m| - 1]);
    hide Anchored, IsBarOf, Between;
    forall t | OnTapePrint(tape, t)
      ensures t.id <= m[|m| - 1].id ==> t.ts < minute + MINUTE
      ensures m[|m| - 1].id < t.id ==> minute + MINUTE <= t.ts
      ensures tape[first].id <= t.id && minute <= t.ts ==> m[0].id <= t.id
    {
      BoundedBy(tape, start, first, minute, m, t);
    }
  }

  /** Without a predecessor nothing is emitted, and the print before the first one is it. */
  lemma RawAnchor(tape: seq<Trade>, first: nat, l: Ledger, pending: map<nat, Trade>, truth: int -> Kline)
    requires RawTruthful(l, pending, tape, first, truth) && l.predecessor.None?
    ensures 0 < first < |tape| && l.v.index == 0 && l.log == [] && pending == map[]
    ensures 1 < tape[first].id && tape[first - 1].id == tape[first].id - 1 && tape[first - 1].ts < l.start
    ensures l.v.cut == l.start <= tape[first].ts
    ensures RawTruthful(l.(predecessor := Some(tape[first - 1])), pending, tape, first, truth)
  {
  }

  /** A true kline of a closed minute is the minute's proof and its journal prints. */
  lemma RawDuplicate(tape: seq<Trade>, first: nat, l: Ledger, pending: map<nat, Trade>, truth: int -> Kline,
                     minute: int)
    requires RawTruthful(l, pending, tape, first, truth) && l.start <= minute < l.v.cut && minute % MINUTE == 0
    ensures tape != [] && Complete(tape, l.start, minute)
    ensures first <= |tape| && MinuteOf(Prints(l), minute) == MinuteOf(tape[first..], minute)
    ensures FirstProof(l.proofs, minute).Some? ==> FirstProof(l.proofs, minute).value == truth(minute).bar
  {
    AlignedCut(tape, first, l);
    ClosedMinuteInLog(tape, first, l, minute);
    FirstProofIsTrue(l.proofs, minute, m => truth(m).bar);
    hide OnTape, Held, Between, PrintsIn;
  }

  /** A print of the tape is accepted once: it is one the log has, or it is ahead of it. */
  lemma RawPrint(tape: seq<Trade>, first: nat, l: Ledger, pending: map<nat, Trade>, truth: int -> Kline, t: Trade)
    requires RawTruthful(l, pending, tape, first, truth) && l.predecessor.Some? && OnTapePrint(tape, t)
    requires t.ts >= l.start
    ensures t.Valid() && t.id > l.predecessor.value.id
    ensures t.id <= l.v.lastId ==> FindIn(Prints(l), t.id) == Some(t)
    ensures l.v.lastId == 0 || l.v.lastId < t.id ==> NextId(l) <= t.id
    ensures t.id in pending ==> pending[t.id] == t
    ensures NextId(l) <= t.id ==> RawTruthful(l, pending[t.id := t], tape, first, truth)
  {
    AheadOfStart(tape, first, l, t);
    if t.id <= l.v.lastId {
      DuplicateAgrees(tape, first, l, t);
    }
    if t.id in pending {
      SamePrint(tape, pending[t.id], t);
    }
  }

  /** A print of the tape in the buffer bounds every earlier one. */
  lemma PrintWithin(tape: seq<Trade>, start: int, first: nat, t: Trade, bound: int)
    requires Anchored(tape, start, first) && OnTapePrint(tape, t) && t.ts < bound
    ensures Within(tape, t.id, bound)
  {
  }

  lemma EarlierWithin(tape: seq<Trade>, target: nat, earlier: int, bound: int)
    requires Within(tape, target, bound)
    ensures 0 <= earlier <= target ==> Within(tape, earlier, bound)
  {
  }

  /** The tape is numbered without a gap. */
  lemma ToCome(tape: seq<Trade>, start: int, first: nat, target: nat, bound: int)
    requires Anchored(tape, start, first) && Within(tape, target, bound)
    ensures target <= tape[|tape| - 1].id == tape[0].id + |tape| - 1
  {
  }

  lemma TruthfulBuffer(l: Ledger, pending: map<nat, Trade>, tape: seq<Trade>, first: nat, truth: int -> Kline,
                       start: int)
    requires RawTruthful(l, pending, tape, first, truth) && Anchored(tape, start, first)
    ensures ValidTape(tape) && forall id :: id in pending ==> pending[id].id == id && OnTapePrint(tape, pending[id])
  {
  }

  lemma OnTapeIsValid(tape: seq<Trade>, start: int, first: nat, t: Trade)
    requires Anchored(tape, start, first) && OnTapePrint(tape, t)
    ensures t.Valid()
  {
  }

  lemma PageAt(tape: seq<Trade>, from: nat, page: seq<Trade>, i: nat)
    requires IsPage(tape, from, page) && i < |page|
    ensures OnTapePrint(tape, page[i]) && page[i].id == from + i
  {
  }

  lemma FirstIsHere(tape: seq<Trade>, from: nat, page: seq<Trade>)
    requires IsPage(tape, from, page) && page != []
    ensures tape != [] && 0 <= from - tape[0].id < |tape| && page[0] == tape[from - tape[0].id]
  {
    PageAt(tape, from, page, 0);
  }

  lemma StillWithin(tape: seq<Trade>, target: nat, bound: int, t: Trade)
    requires Within(tape, target, bound) && OnTapePrint(tape, t) && t.id <= target
    ensures t.ts < bound
  {
  }

  lemma KlineWithin(tape: seq<Trade>, start: int, first: nat, minute: int, kline: Kline)
    requires Anchored(tape, start, first) && Proves(kline, true, MinuteOf(tape[first..], minute))
    ensures kline.count > 0 && 0 < kline.first <= kline.last && kline.last - kline.first + 1 == kline.count
    ensures Within(tape, kline.last, minute + MINUTE)
  {
    KlineBounds(tape, start, first, minute, kline);
  }

  /** Behind its last print the minute is empty. */
  lemma KlineEmpties(tape: seq<Trade>, first: nat, l: Ledger, kline: Kline)
    requires OnTape(tape, first, l) && first <= |tape| && Proves(kline, true, MinuteOf(tape[first..], l.v.cut))
    requires kline.last < NextId(l)
    ensures Emptied(tape, l)
  {
    KlineBounds(tape, l.start, first, l.v.cut, kline);
  }

  /** A fence empties the minute before it. */
  lemma FenceEmpties(tape: seq<Trade>, first: nat, l: Ledger, fence: Trade)
    requires OnTape(tape, first, l) && OnTapePrint(tape, fence) && fence.id == NextId(l)
    requires fence.ts >= l.v.cut + MINUTE
    ensures Emptied(tape, l)
  {
  }

  lemma LastIsOnTape(tape: seq<Trade>, first: nat, l: Ledger) returns (t: Trade)
    requires OnTape(tape, first, l)
    ensures l.v.lastId != 0 ==> OnTapePrint(tape, t) && t.id == l.v.lastId && t.ts == l.v.lastTickTs
  {
    hide Canonical, Reach;
    t := tape[if End(tape, first, l).next > first then End(tape, first, l).next - 1 else first];
  }

  lemma LastIsOpen(l: Ledger)
    requires Journaled(l) && l.v.lastId != 0
    ensures l.v.lastTickTs < l.v.cut + MINUTE
  {
    hide Run, PrintsIn;
  }

  /** What was emitted of the minute does not pass its last print. */
  lemma NotBeyond(tape: seq<Trade>, first: nat, l: Ledger, kline: Kline)
    requires OnTape(tape, first, l) && Journaled(l)
    requires first <= |tape| && Proves(kline, true, MinuteOf(tape[first..], l.v.cut))
    ensures l.v.lastId <= kline.last
  {
    KlineBounds(tape, l.start, first, l.v.cut, kline);
    hide OnTape, Journaled, Proves, Between;
    var t := LastIsOnTape(tape, first, l);
    if l.v.lastId != 0 {
      LastIsOpen(l);
    }
  }

  /** The open minute's aggregate ends right before the fence. */
  lemma FenceFollows(tape: seq<Trade>, first: nat, l: Ledger, a: Aggregate, kline: Kline)
    requires OnTape(tape, first, l) && Emptied(tape, l) && l.predecessor.Some? && Journaled(l) && Open(l, a)
    requires first <= |tape| && Proves(kline, true, MinuteOf(tape[first..], l.v.cut))
    ensures a.count > 0 && a.last + 1 == NextId(l)
  {
    hide OnTape, Emptied, IsBarOf;
    MinuteIsWhole(tape, first, l);
    var prints := Prints(l);
    var m := MinuteOf(prints, l.v.cut);
    MemberIsPrint(prints, l.v.cut, l.v.cut + MINUTE, m[0]);
    var i :| 0 <= i < |prints| && prints[i] == m[0];
    assert prints[i].ts <= prints[|prints| - 1].ts;
  }

  lemma RowProves(kline: Kline, row: Kline, ids: bool, prints: seq<Trade>)
    requires Proves(kline, true, prints) && if ids then row == kline else SameRow(row, kline)
    ensures Proves(row, ids, prints)
  {
  }

  lemma IsComplete(tape: seq<Trade>, start: int, minute: int)
    requires tape != [] && Complete(tape, start, minute)
    ensures minute + MINUTE <= tape[|tape| - 1].ts
  {
  }

  lemma IsTrueRow(tape: seq<Trade>, start: int, minute: int, truth: int -> Kline, row: Kline)
    requires tape != [] && Complete(tape, start, minute) && SameRow(row, truth(minute))
    ensures TrueRow(tape, start, minute, truth, row, false)
  {
  }

  lemma OwnRow(tape: seq<Trade>, start: int, minute: int, truth: int -> Kline, kline: Kline)
    requires tape != [] && Complete(tape, start, minute) && kline == truth(minute)
    ensures TrueRow(tape, start, minute, truth, kline, true)
  {
  }

  /** Whole minutes before a complete one are complete. */
  lemma EarlierComplete(tape: seq<Trade>, first: nat, l: Ledger, minute: int)
    requires OnTape(tape, first, l) && tape != [] && Complete(tape, l.start, minute) && l.v.cut < minute
    ensures Complete(tape, l.start, l.v.cut) && l.v.cut + MINUTE <= minute
  {
    AlignedCut(tape, first, l);
  }

  /** The start minute's kline begins with the first print. */
  lemma StartsFirst(tape: seq<Trade>, start: int, first: nat, kline: Kline)
    requires Anchored(tape, start, first) && Proves(kline, true, MinuteOf(tape[first..], start))
    ensures kline.first == tape[first].id
  {
    KlineBounds(tape, start, first, start, kline);
    assert OnTapePrint(tape, tape[first]);
  }

  // ---------- Such a market exists ----------

  /** Three prints, the second in the start minute and the third behind it. */
  const PRINTS: seq<Trade> :=
    [Trade(1, MINUTE - 1, 1.0, 1.0), Trade(2, MINUTE, 1.0, 1.0), Trade(3, 2 * MINUTE, 1.0, 1.0)]

  function OneKline(minute: int): Kline { Kline(Bar(minute, 1.0, 1.0, 1.0, 1.0, 1.0), 2, 2, 1, true) }

  function PageFrom(call: nat, from: nat): Result<seq<Trade>> {
    if 1 <= from <= 3 then Ok(PRINTS[from - 1..]) else Err(20)
  }

  lemma PrintAt(k: nat)
    requires k < 3
    ensures |PRINTS| == 3 && PRINTS[k].id == k + 1 && PRINTS[k].Valid() && OnTapePrint(PRINTS, PRINTS[k])
  {
  }

  lemma PageAnswers(from: nat)
    requires 1 <= from <= 3
    ensures |PRINTS| == 3 && IsHistory(PRINTS[from - 1..], from) && IsPage(PRINTS, from, PRINTS[from - 1..])
  {
    PrintAt(0);
    var page := PRINTS[from - 1..];
    forall i | 0 <= i < |page|
      ensures page[i].Valid() && page[i].id == from + i && OnTapePrint(PRINTS, page[i])
    {
      PrintAt(from - 1 + i);
    }
  }

  lemma PagesAnswer()
    ensures forall call, from :: PageFrom(call, from).Ok? ==> IsHistory(PageFrom(call, from).value, from)
    ensures forall call, from :: 0 <= from - PRINTS[0].id < |PRINTS| ==>
                                   PageFrom(call, from).Ok? && IsPage(PRINTS, from, PageFrom(call, from).value)
  {
    hide IsHistory, IsPage;
    PageAnswers(1);
    PageAnswers(2);
    PageAnswers(3);
  }

  lemma OneIsProven()
    ensures TrueKlines(PRINTS, 1, MINUTE, OneKline)
  {
    var t, rest := PRINTS[1], PRINTS[2];
    assert PRINTS[1..] == [t, rest];
    assert [t, rest][..1] == [t] && [t][..0] == [];
    assert Between([], MINUTE, MINUTE + MINUTE) == [];
    assert MinuteOf([t], MINUTE) == [] + [t] == [t];
    assert MinuteOf([t, rest], MINUTE) == [t];
    assert Volume([t]) == 0.0 + t.qty;
  }

  lemma {:induction false} NoBytes(prints: seq<Trade>)
    ensures SumBytes(trade => 0, prints) == 0
  {
    if prints != [] {
      NoBytes(prints[..|prints| - 1]);
    }
  }

  /** Such a venue and host exist: a print in the start minute and one behind it, each page and row as asked for. */
  lemma SomeRawVenueCooperates() returns (venue: RawVenue, host: Host, limits: Limits)
    ensures RawCooperates(venue, host, limits, PRINTS, 1, MINUTE, OneKline) && Complete(PRINTS, MINUTE, MINUTE)
  {
    hide IsHistory, IsPage, PageFrom, TrueKlines;
    var rows := (call: nat, lo: int, hi: int) => Ok([OneKline(lo)]);
    venue := RawVenue(PageFrom, rows, (call: nat, start: int) => Ok(2));
    host := Host((call: nat) => false, (call: nat) => false, (call: nat) => JournalFormat.Segment(0, 0, 0, 0, -1));
    limits := Limits(0, trade => 0);
    PagesAnswer();
    OneIsProven();
    NoBytes(PRINTS);
    assert Adapted(venue) && RawAnswers(venue, PRINTS, 1, MINUTE, OneKline);
  }
}
