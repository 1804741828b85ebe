# The feed producer, verified

A Dafny 4.11 model of the market-data producer in `native/feed/src` (a durable tick journal, the two sessions that
close minutes, the fan-out to clients, and the archive export) and of the Python compile cache, with proofs.

`dafny verify dfyconfig.toml` checks the whole project.

## What is modelled

**The journal** (`Feed`, `JournalFormat`, `Volumes`, `JournalSteps`, `Journal`, `JournalRecovery`). The disk is explicit:
the cursor file, segment files as bytes, checkpoints and temporaries. Every durable effect is one step of a
`Volume`: a partial append, an atomic replacement, a creation, a removal, a truncation. Each step records the disk it
leaves and the producer's marks at that moment: how many lines it has released, which segments it has begun, and how many
of the oldest retention has given up. The recorded history is exactly the set of states a crash may leave, a crash inside
recovery included. Any step may also fail. Message parsing and SHA-256 are arbitrary functions, so nothing depends on
them. The invariant of the producer says that every disk of the history recovers to the lines from the first one not given
up, with the newest print, and that committed lines and marks never fall and the stream stays the same; so a run may stop
anywhere, be resumed, and stop again. The protected window is kept while each proof is staged with the line that closes
its minute (`closing`), as both sessions do: staging a proof requires a `time` line, and `SessionJournal.ProofsClose` says
that such a proof closed its own minute. When a segment is sealed and what retention gives up is stated as a rule on
sizes, ages and the protected window alone.

**Queries and retention** (`Retention`, `JournalQueries`, `Reader`, `ProducerViews`). Reads through segment tables are
compared with linear searches of one flat log. A client's `JournalReader` runs beside a producer that appends, seals and
expires at any moment: each system call sees a later state of the files, and `ProducerViews` proves that every run of the
producer is such a sequence of files.

**Sessions** (`Tape`, `Aggregates`, `Ledgers`, `SessionJournal`, `Cooperation`, `Fence`, `KlineRange`, `RawCooperation`,
`FeedSessions`). The venue is a sequence of prints, contiguous in ID and monotone in time, that its REST pages and its
events are drawn from; answers may fail, be short or be empty at any call. A tape determines one message sequence, and
`FenceSession` emits a beginning of it whatever the events were. With `honest` false the venue is arbitrary, and what is
left is termination and the buffer accounting. `Cooperation` says when nothing stands in the way; no event then stops a
session. `FeedSession` is proved against an arbitrary venue: what the journal holds is proven by the journal itself.
`RawCooperation` says when it succeeds: the venue answers truly, and every minute has a print, since the source closes
none without its kline. A session's `Ledger` is the journal without bytes and hashes; `SessionJournal` proves that the
two accept the same lines and give the same answers, and that after any crash the recovered lines are again a beginning
of the tape's messages from which a session restarts. Progress is stated as well: `Keeps` says that no buffered print is
lost, `KeepsCandles` that no buffered candle is.

**Decoders and arithmetic** (`Arithmetic`, `Bits`, `Huffman`, `Deflate`, `Inflate`, `Crc`, `Decimals`, `RunnerVolumes`,
`ChainBarsBuilder`, `ArchiveLines`). Each fast or incremental form is proved equal to a short definition: the deflate
format of RFC 1951 over a bit string with the whole output in hand, polynomial division bit by bit, digit strings as
numbers, the nearest 53-bit significand, the batch rule for one-minute bars, one chunk instead of many.

**Fan-out and cache** (`FanOut`, `Okx`, `CompileCaches`). Concurrent code is a class whose methods are the atomic steps
(one critical section, or one stretch between awaits); an invariant kept by every method holds in every interleaving.

Four results say when the code does not do what one would expect, and exactly when it does:

* `ArchiveLines.ChunkIndependence`: a line longer than 4096 bytes is refused only when a chunk ends inside it, so an
  archive's state and failure are independent of its chunks exactly when no terminated line that is reached is longer, or
  the archive is refused with 23 anyway in the state that line was reached in.
* `CompileCaches.CompileLocks.LostStays`: a task cancelled before it acquires, or before it counts down, keeps its
  reference, because the source enters its `try` only after acquiring and counts down under a guard it must await; its
  entry then stays in the table for good.
* `CompileCaches.StaleTrimEvicts`: a trim cancelled while its thread runs frees the guard, and the thread goes on with the
  reservations it saw; an artifact reserved later can be evicted. Reserved artifacts stay in every interleaving in which no
  running sweep may still take them (`Covered`), a sweep left to itself takes a reserved artifact exactly when it is among
  its `Doomed` ones, and an acquire cancelled while it awaits the time stamp leaks its reservation.
* `Reader.ReturnsExactly`: over unchanged files a `JournalReader` opens the same file again and again exactly at the head
  in an empty open segment that starts at its index, as at the start of a fresh stream. Both callers ask only for published
  lines.

## Model

| member | source | states |
|---|---|---|
| JournalFormat.RecoveryIsComplete | native/feed/src/state.cpp:226-339 | every disk that holds the committed log, plus at most the leftovers of one interrupted step, is accepted, and the last persisted cursor and its exact segment table are rebuilt |
| JournalFormat.ReplayBytesOfLines | native/feed/src/state.cpp:71-97 | reading the bytes of whole lines from a file replays exactly those lines, whatever surrounds them |
| JournalFormat.HashChainDetermines | native/feed/src/state.cpp:319-326 | equal final hashes over equally many verified lines mean equal lines; otherwise two different strings with one digest are in hand, each hashed for a line of one of the two chains |
| JournalFormat.RecoveryAcceptsOnlyCommittedBytes | native/feed/src/state.cpp:271-331 | with arbitrary segment files, recovery succeeds only if the files it retains end in the newest of the journal's own, and each of those holds every committed byte unchanged, unless one of its lines and a committed line were hashed from different strings to one digest |
| JournalSteps.CommitMoves | native/feed/src/state.cpp:384-410 | replacing the cursor over an appended batch commits exactly that batch |
| JournalSteps.SealSteps | native/feed/src/state.cpp:411-431 | each of the three files a seal writes leaves a disk that recovers to the same log |
| JournalSteps.ExpireKeeps | native/feed/src/state.cpp:432-457 | removing the oldest segment and then its checkpoint keeps the rest recoverable in between |
| JournalSteps.TruncationCleans | native/feed/src/state.cpp:329-331 | rolling back the uncommitted tail leaves exactly the committed bytes |
| Volumes.Volume.Append | native/feed/src/core.cpp:141-150 | a write may stop after any prefix; every prefix is a state a crash may leave, each later one a longer prefix |
| Journal.State.Anchor | native/feed/src/state.cpp:341-349 | the start predecessor is taken exactly when nothing was staged or committed, none is set, and it precedes the start |
| Journal.State.Stage | native/feed/src/state.cpp:361-383 | one line extends the verified cursor, or is refused with nothing changed; the invariant over the staged log is kept |
| Journal.StagedIs | native/feed/src/state.cpp:361-383 | a line is refused for its length, its message, a proof of another minute, and at the last index; otherwise the newest 32 proofs are kept |
| Journal.State.Flush | native/feed/src/state.cpp:384-410 | on success exactly the staged lines are appended to the committed log and released; a segment is begun exactly when the open one has reached its size, and only oldest segments over a budget and outside the protected window are dropped, down to both budgets; on any failure the log is the old one or the whole batch, never a part, and the state is unusable; in no case is a line given up that the rules keep |
| Journal.State.Settle | native/feed/src/state.cpp:402-409 | after a commit the table is sealed and expired exactly by the rules on size, budgets and protected window, and a failure in between gives up no line that they keep |
| Journal.State.Rotate | native/feed/src/state.cpp:411-431 | sealing adds one segment that starts at the committed head, and the log does not change |
| Journal.State.Retain | native/feed/src/state.cpp:432-457 | each dropped segment was over the byte budget or its successor over the age budget, outside the protected window and without the newest print; at the end one is left, or the oldest is needed, or it is inside both budgets; in every state in between the disk recovers |
| Journal.OneTableByRule | native/feed/src/state.cpp:402-457 | the sealing and retention rules leave one table |
| Journal.SmallLogIsKept | native/feed/src/state.cpp:432-457 | a log within the byte budget and without an age budget loses no segment, and after a commit the open segment is below its size |
| JournalRecovery.Recover | native/feed/src/state.cpp:226-339 | without I/O faults recovery decides as a function of the disk it found; before success it removes only temporaries and leftovers, and the open segment is truncated last |
| JournalRecovery.EveryMomentIsACrash | native/feed/src/state.cpp:195-225 | a run may stop at any recorded disk: it is then a directory a fresh start may take over, or a crash with the lines of its last cursor, from which resuming continues |
| JournalRecovery.Resume | native/feed/src/state.cpp:174-186 | after a crash resuming continues the same log at the last persisted cursor, with the same retained segments and protected window, and may itself crash at any step and be resumed again |
| JournalRecovery.Reopen | native/feed/src/state.cpp:384-409 | whatever state a producer is left in, after a failed commit as well, a new process continues the same stream with every committed line and with none that was not staged |
| JournalRecovery.EveryCrashRecovers | native/feed/src/state.cpp:226-457 | in every state of a run's history recovery accepts the disk and rebuilds its cursor, and the files it leaves are exactly the committed lines from the first that retention has not given up; they hold every released one of those, the newest print, and the protected window |
| JournalRecovery.Create | native/feed/src/state.cpp:195-225 | a fresh start takes over a directory exactly when nothing was committed there, and a crash in between stays a fresh start |
| Retention.ExpiredExactly | native/feed/src/state.cpp:465-472 | a minute counts as expired if and only if some message of it lies before the first retained segment |
| Retention.ProtectedWindowRetained | native/feed/src/state.cpp:432-457 | no message of the open minute or of any proof minute has expired, and a retained segment holds the newest print |
| Retention.ProofsRetained | native/feed/src/state.cpp:432-457 | neither the open minute nor any minute a proof is held of has expired |
| Retention.NewestPrintRetained | native/feed/src/state.cpp:432-457 | the newest print has not expired, whatever proofs were staged |
| Retention.IndexCoversMinute | native/feed/src/state.cpp:474-478 | every message of a minute that has not expired is at or after the minute's index |
| Retention.MinuteRebuilds | native/feed/src/session.cpp:99-108 | reading from the minute's index sees exactly the prints of the minute that the whole history holds |
| Retention.FindFromSegment | native/feed/src/state.cpp:515-527 | searching a print from the chosen segment finds what a linear search of the whole history finds |
| Retention.FindBarFromIndex | native/feed/src/state.cpp:532-542 | searching a bar from its minute's index finds what a linear search of the whole history finds |
| JournalQueries.ReadLines | native/feed/src/state.cpp:71-97 | a read of the first bytes of a file that hold whole lines returns exactly those lines |
| JournalQueries.Visit | native/feed/src/state.cpp:480-509 | a scan over all segment boundaries and staged lines reports exactly the messages from the index on, and refuses an expired or unknown index |
| JournalQueries.TradeById | native/feed/src/state.cpp:515-527 | a print that has not expired is found as by a linear search of everything ever staged |
| JournalQueries.BarAt | native/feed/src/state.cpp:532-542 | a closed bar that has not expired is found as by a linear search of everything ever staged |
| JournalQueries.MinuteFromJournal | native/feed/src/session.cpp:268-281 | a minute rebuilt from the retained journal has the prints of the whole history |
| ProducerViews.ViewIsSound | native/feed/src/serve.cpp:396-410 | on every recorded disk, at rest or in the middle of an append, a seal or an expiry, the files are what a concurrent reader relies on and hold every released line |
| ProducerViews.StepIsLater | native/feed/src/state.cpp:390-457 | each durable step of a running producer only appends, begins a segment at the committed head, or removes a sealed one |
| ProducerViews.RunIsProducing | native/feed/src/state.cpp:384-457 | whenever a reader's system calls fall in a producer's run, each sees a sound journal and a later one than the call before |
| Reader.LineAhead | native/feed/src/serve.cpp:437-447 | with a committed line ahead, the buffer holds it whole or holds a part of it without its newline and the file has more |
| Reader.JournalReader.Pass | native/feed/src/serve.cpp:438-454 | one pass of the loop takes a buffered line, reads on, opens the segment that starts at the index, or finds nothing, each by the files of its own moment |
| Reader.JournalReader.Next | native/feed/src/serve.cpp:437-455 | while the producer appends, seals and expires, the next committed line is returned across reads, compaction and segment boundaries, none only when its file has expired; at the head of unchanged files it returns too unless the empty open segment starts there, and finds nothing when no byte follows the committed lines |
| Reader.JournalReader.Seek | native/feed/src/serve.cpp:411-436 | positions before the index, or some segment at or before it is no longer listed |
| Reader.OpensItself | native/feed/src/serve.cpp:450-453 | a pass that opens the segment it reads is one at the empty open segment |
| Reader.ReturnsExactly | native/feed/src/serve.cpp:437-455 | over unchanged files the loop ends if and only if the reader is not at the head in an empty open segment that starts at its index |
| Reader.FreshStreamSticks | native/feed/src/serve.cpp:437-455 | a fresh stream is such a state: at message 0 no number of passes ends the loop |
| Reader.SnapshotPrefix | native/feed/src/serve.cpp:457-471 | the document is exactly the committed prefix when it fits the limit, is refused exactly when it does not, and fails only when some segment at or before it has expired |
| Tape.SessionsAgree | native/feed/src/session.cpp:500-526 | two sessions on one tape emit the same messages, one possibly further than the other |
| Tape.PrintsAreContiguous | native/feed/src/session.cpp:378-388 | the emitted prints are exactly the tape's prints after the predecessor, in order, with no gap and no duplicate |
| Tape.TimeLineIsComplete | native/feed/src/session.cpp:439-466 | a `time` line comes after every print before it and before every print at or after it |
| Ledgers.EveryTimeLineHolds | native/feed/src/session.cpp:439-466 | the candle that closed a minute is, where candles are print sums, the bar of exactly the minute's prints on the tape |
| Ledgers.FenceCompletes | native/feed/src/session.cpp:500-512 | behind the fence, the exact OHLCV check accepts a candle if and only if it is the bar of all the minute's prints |
| Ledgers.DuplicateAgrees | native/feed/src/session.cpp:358-367 | an emitted print seen again on the tape is found unchanged, so a true duplicate is never refused |
| Ledgers.RestartOnTape | native/feed/src/session.cpp:326-335 | any journal that verifies and lies on the tape restarts a session where it stopped |
| Ledgers.ReplayIsFold | native/feed/src/state.cpp:315-326 | a journal that replays gives a session the position that was verified |
| Ledgers.BarsAreContiguous | native/feed/src/state.cpp:45-49 | a journal of bars is accepted exactly when it is the valid bars of consecutive minutes from the start |
| Ledgers.AdvanceRefuses | native/feed/src/state.cpp:34-57 | a malformed message or one of the other mode is refused with 23, one out of its place with 20 |
| Ledgers.Refold | native/feed/src/session.cpp:326-335 | folding the journal's prints of a time range gives the aggregate of exactly those prints, and is refused only when they are no run |
| Ledgers.ClosedMinuteInLog | native/feed/src/session.cpp:483-492 | a closed minute's journal prints are all of that minute's prints on the tape |
| SessionJournal.StagedAgrees | native/feed/src/state.cpp:361-383 | the journal accepts a line if and only if its message is accepted by the session's ledger, and the two stay mirrors |
| SessionJournal.FindAgrees | native/feed/src/state.cpp:515-527 | searching the journal's lines for a print is searching the ledger's prints |
| SessionJournal.MinuteAgrees | native/feed/src/session.cpp:483-492 | a minute's prints read from the journal are those selected from the ledger's prints |
| SessionJournal.IndexSkipsNothingOpen | native/feed/src/session.cpp:326-335 | the journal index a restart reads from skips no print of the open minute |
| SessionJournal.ProofsClose | native/feed/src/state.cpp:361-383 | a proof staged with a `time` line, as sessions stage them, closed its own minute |
| SessionJournal.EveryCrashRestarts | native/feed/src/state.cpp:226-339 | whatever was staged and wherever in a call the process stops, the recovered lines are again a beginning of the session's messages on the tape, and a session restarts on them from the index the recovered table gives |
| Cooperation.RoomForOne | native/feed/src/session.cpp:370-377 | when the whole tape fits the buffer, one more print of it does |
| Cooperation.CandleCloses | native/feed/src/session.cpp:439-467 | behind the fence the venue's true candle reconciles with the minute's prints and its `time` line is accepted |
| Cooperation.SomeVenueCooperates | native/feed/src/session.cpp:500-526 | the conditions for success can be met, by a venue whose candles are print sums and by one whose candles are not |
| Fence.FenceSession.Put | native/feed/src/session.cpp:345-377 | a print is buffered once, ahead of the log, and the byte count stays the sum of the buffer within its bound; prints of the tape are refused only for the bound, and not when the tape fits it |
| Fence.FenceSession.EmitTrade | native/feed/src/session.cpp:378-389 | emits exactly the next print of the tape, and forgets its buffered copy and no other |
| Fence.FenceSession.Heal | native/feed/src/session.cpp:414-423 | a healed gap has its first missing print in the buffer, with everything that was there before |
| Fence.FenceSession.Forward | native/feed/src/session.cpp:427-438 | looks ahead at most once for each confirmed watermark; a page that was found is in the buffer from the next ID on |
| Fence.FenceSession.CloseMinute | native/feed/src/session.cpp:439-467 | closes the open minute only behind a print of a later minute and with a reconciled candle; later candles stay |
| Fence.FenceSession.TakeCandle | native/feed/src/session.cpp:468-499 | a forming candle changes nothing; a confirmed one moves the watermark to the end of its minute; of a closed minute it is accepted only when it equals the retained proof or is the bar of the minute's prints, of an open one it is buffered unless another bar is, with each refusal's code |
| Fence.FenceSession.Advance | native/feed/src/session.cpp:500-513 | terminates for an arbitrary venue and keeps the log on the tape; on success the log has only grown, every buffered print is still buffered or in it, every buffered candle waits or closed its minute, and nothing is left that could be emitted or closed; it succeeds when the venue answers truly and in full, the buffer has room and the host goes on |
| Fence.FenceSession.Stage | native/feed/src/session.cpp:514-526 | after any event, in any order, repeated or after losses, the log is the tape's, also when the session stops in the middle, and no minute is closed ahead of the newest confirmed candle; an accepted print is buffered or in the log (or, off the tape, has an expired ID), an accepted candle waits, has closed its minute or agrees with it, and nothing taken before is lost; under the conditions of `Cooperates` every print of the tape, every true candle and every forming one is accepted |
| Fence.Restart | native/feed/src/session.cpp:326-335 | a session over a recovered journal, read from an index that skips no print of the open minute, has that minute's aggregate and is never refused on the tape |
| Aggregates.AddSummarizes | native/feed/src/core.cpp:369-386 | adding the next print keeps first, last, count, OHLC and volume those of the prints |
| Aggregates.ReconcilesExactly | native/feed/src/session.cpp:316-324 | the fenced check accepts a candle if and only if it is the bar of the prints |
| Aggregates.ReconcileProves | native/feed/src/core.cpp:387-396 | reconciliation accepts a kline if and only if its count, OHLCV and, for its own proof, its confirmed ID range are those of the prints |
| Aggregates.Refusals | native/feed/src/core.cpp:389-396 | a kline that does not cover the prints is unproven (20), one that covers them with another bar contradicts them (21) |
| Aggregates.AddRefusals | native/feed/src/core.cpp:369-372 | exactly the continuations of the run are added; a malformed print is refused with 23, any other with 20 |
| KlineRange.TickJoins | native/feed/src/session.cpp:182-195 | an emitted tick joins the open minute's aggregate and no closed minute |
| KlineRange.CutCloses | native/feed/src/session.cpp:295-305 | a `time` line leaves every minute's ticks equal to the kline that closed it |
| KlineRange.RestartAggregate | native/feed/src/session.cpp:99-108 | a session rebuilt after a restart has the aggregate of one that never stopped |
| FeedSessions.FeedSession.EmitTrade | native/feed/src/session.cpp:182-195 | emits the next ID inside the open minute, keeps the aggregate the fold of the journal's ticks since the cut, and forgets only that print |
| FeedSessions.FeedSession.HealTo | native/feed/src/session.cpp:196-210 | reaches the target ID or stops, removes nothing buffered beyond it, and every print it removes is in the log |
| FeedSessions.FeedSession.Drain | native/feed/src/session.cpp:211-219 | on success only buffered prints of later minutes are left, and every print that was buffered still is, or is in the log |
| FeedSessions.FeedSession.HistoricalMinute | native/feed/src/session.cpp:223-249 | closes exactly one minute, on a later watermark, a contiguous prefix, the fence and REST count and OHLCV; the fence is buffered and nothing is lost; a complete minute of a truthful venue is closed |
| RawCooperation.SomeRawVenueCooperates | native/feed/src/session.cpp:307-314 | the conditions for success of a raw-tick session can be met |
| RawCooperation.RawCut | native/feed/src/session.cpp:223-249 | once every print of a complete minute is emitted, its kline reconciles and its `time` line is accepted |
| RawCooperation.KlineBounds | native/feed/src/session.cpp:286-304 | a true kline's ID range is its minute's first to last print: the tape is earlier before it and later behind it |
| FeedSessions.FeedSession.Closed | native/feed/src/session.cpp:251-306 | a forming kline and one before the start change nothing but, when confirmed, the watermark, which is the end of the newest confirmed kline's minute; a closed minute's kline is answered exactly by its proof and journal prints; an open minute is closed by this kline with its ID range, and the buffer drained; the true kline of a complete minute succeeds when nothing stands in the way |
| FeedSessions.FeedSession.Stage | native/feed/src/session.cpp:307-314 | for every venue and event, each `time` line in the journal is proven by a kline that is exactly its minute's ticks, and no minute is closed ahead of the newest confirmed kline; forming klines change nothing; an accepted print is buffered or in the log, or its ID has expired, and nothing taken before is lost; with a print in every minute and a truthful venue every print and every true kline is accepted |
| FeedSessions.Restart | native/feed/src/session.cpp:99-108 | rebuilding from such an index is never refused and gives the uninterrupted aggregate |
| Okx.Client.History | native/feed/src/okx.cpp:145-163 | pages join to the maximal visible run of the tape up to the limit |
| Okx.Client.WalkTo | native/feed/src/okx.cpp:168-184 | returns the last print strictly before the minute if and only if a print at or after it is visible, from any earlier print the lookup names, and terminates; it fails only when the lookup names none, or at the end of the ID range |
| Okx.AnchorsTheChain | native/feed/src/okx.cpp:164-184 | what the walk finds is the only predecessor a session can be anchored on |
| Huffman.FirstCodeStart | native/feed/src/export.cpp:63-66 | each length's first code starts where the shorter codes end |
| Huffman.PrefixFree | native/feed/src/export.cpp:56-78 | when the Kraft sum is at most 1 no code is the beginning of another |
| Huffman.MatchIsUnique | native/feed/src/export.cpp:68-77 | no two symbols claim the same slot |
| Huffman.Fits | native/feed/src/export.cpp:57-62 | the running count goes negative if and only if the Kraft sum exceeds 1 |
| Huffman.Build | native/feed/src/export.cpp:56-78 | refuses exactly the over-subscribed length vectors; otherwise every 15-bit index holds the symbol whose code begins it, or 0 |
| Huffman.LookupDecodes | native/feed/src/export.cpp:121-127 | an entry is a symbol's if and only if that symbol's code begins the input bits |
| Inflate.Inflater.Need | native/feed/src/export.cpp:101-108 | filling the register does not change the remaining input bits |
| Inflate.Inflater.Drop | native/feed/src/export.cpp:109-113 | succeeds exactly when only real input bits are consumed |
| Inflate.Inflater.TakeBits | native/feed/src/export.cpp:114-120 | reads the next bits of the input as a number, or finds the input too short |
| Inflate.Inflater.Decode | native/feed/src/export.cpp:121-127 | table lookup with padding decodes the next symbol of the input, or none |
| Inflate.Inflater.WindowSuffices | native/feed/src/export.cpp:128-136 | the flushed window answers every distance check as the whole output would |
| Inflate.Inflater.CopyBack | native/feed/src/export.cpp:160-162 | an overlapping copy in the window is the copy in the whole output |
| Inflate.Inflater.StoredBlock | native/feed/src/export.cpp:137-142 | a stored block is read as the format defines it |
| Inflate.Inflater.CompressedBlock | native/feed/src/export.cpp:143-164 | a compressed block is read as the format defines it |
| Inflate.Inflater.DynamicTables | native/feed/src/export.cpp:165-191 | the code lengths of a dynamic block are read as the format defines them, and their tables are built |
| Inflate.Inflater.Run | native/feed/src/export.cpp:193-220 | everything handed to the sink is the stream's output, and the run succeeds exactly when the format accepts the stream and less than one whole byte is left; of a refused stream the sink has a part of what was decoded |
| Deflate.SymbolIs | native/feed/src/export.cpp:121-127 | the next symbol of a bit string is unique |
| Deflate.Distances | native/feed/src/export.cpp:147-150 | the distance ranges follow one another up to 32768 |
| Deflate.LengthRanges | native/feed/src/export.cpp:144-146 | the length ranges follow one another from 3 to 258 |
| Deflate.OrderIs | native/feed/src/export.cpp:166-166 | the order of the code length alphabet |
| Deflate.FixedLengths | native/feed/src/export.cpp:194-201 | the lengths of the fixed codes |
| Crc.WordAtOnce | native/feed/src/export.cpp:428-428 | feeding a word's bits one by one equals adding the word first |
| Crc.TableStep | native/feed/src/export.cpp:420-428 | one table lookup does eight division steps |
| Crc.Crc32 | native/feed/src/export.cpp:417-430 | the table form is the bit-by-bit division of the message |
| Crc.DivideIsModular | native/feed/src/export.cpp:424-424 | a division step is multiplication by x modulo the polynomial |
| Crc.PolynomialIs | native/feed/src/export.cpp:424-424 | the polynomial by its exponents |
| Crc.Continues | native/feed/src/export.cpp:417-430 | continuing from the CRC of one message over another is the CRC of both |
| RunnerVolumes.Normalise | native/feed/src/export.cpp:245-254 | scales the denominator into the numerator's binade without overflow, so the second loop has nothing to do |
| RunnerVolumes.Decimal | native/feed/src/export.cpp:242-268 | the significand is the nearest one, ties to even, and no 64-bit step overflows |
| RunnerVolumes.RunnerVolume.Add | native/feed/src/export.cpp:269-286 | the sum stays exact precisely while every quantity is on the grid and the total fits in 63 bits |
| RunnerVolumes.OrderIrrelevant | native/feed/src/export.cpp:269-287 | exactness and the exact total do not depend on the order of the quantities |
| ChainBarsBuilder.ChainBars.Anchor | native/feed/src/export.cpp:313-321 | the predecessor is taken once, and only before the start |
| ChainBarsBuilder.ChainBars.Add | native/feed/src/export.cpp:322-357 | accepts exactly the continuations of the chain, and keeps every row that of the batch rule |
| ChainBarsBuilder.ChainBars.Carry | native/feed/src/export.cpp:364-369 | quiet minutes repeat the last price without volume, and only a quiet start without a seed is refused |
| ChainBarsBuilder.ChainBars.Csv | native/feed/src/export.cpp:376-379 | once fenced there is one row for each minute of the window, over exactly the prints between predecessor and fence, with the quiet ones counted |
| ArchiveLines.ChunkIndependence | native/feed/src/export.cpp:613-635 | state and failure are independent of the chunks if and only if no terminated line that is reached exceeds 4096 bytes, except where the archive is refused with 23 in the state that line was reached in anyway |
| ArchiveLines.Splitter.Bytes | native/feed/src/export.cpp:616-635 | the callback does to a chunk what its definition says |
| ArchiveLines.LastLineCounts | native/feed/src/export.cpp:650-652 | an unfinished last line is taken as if it had its newline, and a finished archive is left as it is |
| Decimals.Make | native/feed/src/core.cpp:204-214 | strips to the reduced form or refuses it |
| Decimals.NormalIsUnique | native/feed/src/core.cpp:204-214 | a value has one normal form |
| Decimals.NormalisedIsExact | native/feed/src/core.cpp:204-214 | the value is kept, or no decimal within the precision bound has it |
| Decimals.CompareIsOrder | native/feed/src/core.cpp:231-238 | comparison is the order of the values, on any common scale |
| Decimals.Add | native/feed/src/core.cpp:240-256 | the sum is exact, or no decimal within the precision bound is |
| Decimals.Multiply | native/feed/src/core.cpp:258-273 | the schoolbook product is exact, or no decimal within the precision bound is |
| Decimals.Parse | native/feed/src/core.cpp:216-229 | accepts exactly the unsigned fixed-point grammar, with its exact value |
| Decimals.RoundTrip | native/feed/src/core.cpp:275-281 | a canonical token of at most 96 characters reads back as the same decimal |
| FanOut.OfferedServed | native/feed/src/serve.cpp:51-67 | publishing a line keeps one client's slice and its backlog accounting, or cuts the client off |
| FanOut.Hub.Publish | native/feed/src/serve.cpp:51-67 | every live client with room for the line gets it, a client is cut off exactly when its queue has no room, and none affects another |
| FanOut.Hub.Admit | native/feed/src/serve.cpp:155-190 | a cursor is admitted exactly inside the published retained log, and each refusal has its status |
| FanOut.Hub.ReadHead | native/feed/src/serve.cpp:236-247 | a client turns live exactly at the published head, in the critical section that reads it; nothing else of it changes, and no client is cut off |
| FanOut.Hub.Replay | native/feed/src/serve.cpp:254-276 | a client catching up receives the next line of the log |
| FanOut.Hub.Pop | native/feed/src/serve.cpp:279-301 | a live client takes the next line of the log; a client that was cut off is closed with 1008, and a stopping producer closes the others only after everything published; no client is cut off |
| FanOut.Hub.Send | native/feed/src/serve.cpp:302-305 | a sent line extends the client's slice by one; a failed write ends the connection |
| CompileCaches.CompileLocks.MutualExclusion | src/pineforge_data/compile_cache.py:46-61 | at most one task per key is inside, although entries come and go |
| CompileCaches.CompileLocks.Reclaimed | src/pineforge_data/compile_cache.py:57-61 | an entry stays while its key is in use, and otherwise only after a task was cancelled on it |
| CompileCaches.CompileLocks.LostStays | src/pineforge_data/compile_cache.py:53-61 | the lock of a task cancelled while it held a reference stays in the table; no step takes a lost reference back |
| CompileCaches.CompileLocks.Enter | src/pineforge_data/compile_cache.py:46-52 | everyone who arrives on a key shares its one lock |
| CompileCaches.CompileLocks.Leave | src/pineforge_data/compile_cache.py:57-61 | the last reference reclaims the entry |
| CompileCaches.CompileLocks.Cancel | src/pineforge_data/compile_cache.py:53-61 | a task cancelled before it acquires, or before it counts down, leaves its reference behind |
| CompileCaches.CompileCache.Reserve | src/pineforge_data/compile_cache.py:91-101 | an existing artifact gets one more reservation; no running sweep can take a reserved artifact afterwards exactly when none could before and none may still take this one |
| CompileCaches.CompileCache.CancelAcquire | src/pineforge_data/compile_cache.py:94-102 | an acquire cancelled while it awaits the time stamp leaks its reservation |
| CompileCaches.CompileCache.LeakStays | src/pineforge_data/compile_cache.py:94-102 | a leaked reservation is never given back |
| CompileCaches.CompileCache.Acquire | src/pineforge_data/compile_cache.py:91-102 | undisturbed, an artifact gets one more reservation and its stamp if it exists, and every reserved artifact exists |
| CompileCaches.CompileCache.CommitAndAcquire | src/pineforge_data/compile_cache.py:104-113 | undisturbed, a new artifact replaces any earlier one and gets one more reservation |
| CompileCaches.CompileCache.Release | src/pineforge_data/compile_cache.py:115-119 | one reservation is given back, and the last one frees the artifact |
| CompileCaches.CompileCache.UsePublished | src/pineforge_data/compile_cache.py:104-119 | so does one that was just published |
| CompileCaches.CompileCache.Use | src/pineforge_data/compile_cache.py:63-71 | an artifact reserved and given back leaves every count as it was |
| CompileCaches.CompileCache.Unlink | src/pineforge_data/compile_cache.py:155-171 | a sweep's step removes a reserved artifact exactly when its trim did not see the reservation; covered reservations stay in every interleaving |
| CompileCaches.CompileCache.CancelTrim | src/pineforge_data/compile_cache.py:133-136 | a cancelled trim frees the guard while its sweep goes on with the reservations it saw |
| CompileCaches.CompileCache.SweepOn | src/pineforge_data/compile_cache.py:155-171 | left to itself a sweep takes exactly its doomed artifacts, so the reserved ones stay if and only if none is among them |
| CompileCaches.CompileCache.CalmIsCovered | src/pineforge_data/compile_cache.py:133-136 | with no cancelled trim still running, no reserved artifact can be taken |
| CompileCaches.StaleTrimEvicts | src/pineforge_data/compile_cache.py:91-136 | an interleaving in which a cancelled trim evicts an artifact reserved after it looked |
| CompileCaches.CompileCache.Trim | src/pineforge_data/compile_cache.py:133-171 | undisturbed, the shortest oldest-first run of unreserved artifacts that meets both limits is removed, or all of them when even that is not enough; reserved ones stay |
| CompileCaches.SortedInOrder | src/pineforge_data/compile_cache.py:158 | the listing a trim works through is in the order of time, size and file name, with every artifact once |

## Left out

- Prices and quantities in the journal and the sessions are exact real values; `Decimals` shows that the digit strings the source compares are exact values with one normal form. Messages are a datatype; JSON text is an arbitrary function in `Codec`.
- The cursor's and the checkpoints' own digests, the venue identity and unit checks of a resume, file locks, `fsync`, replay time limits, and the configured start on resume: a crash keeps the effects in program order.
- 64-bit overflow of the open minute's end and of message counters.
- Journal.State.Anchor: after a failed cursor write only the crash guarantee is promised, because the producer stops there.
- The cache of recent prints in front of `trade(id)` and of recent bars and proofs in front of `bar(ts)`.
- The reconnect overlap checks (`connected`), which compare emitted prints and candles with REST again, and the spaced re-reads before a disagreement counts: pauses only repeat a request.
- `FeedSession` in bars mode: its lines are contiguous by the journal's own rule, `Feed.Advance`.
- FeedSessions.FeedSession.EmitTrade: a venue adapter that returns an empty page is excluded, because the spot adapter stops instead.
- Fence.FenceSession.Stage: success is shown with fewer than 100000 candles waiting; beyond that a candle is refused.
- Reader.JournalReader.Seek: a refusal says that some segment at or before the index was removed, not which one.
- Reader.JournalReader.Next: I/O errors other than a missing file.
- RunnerVolumes.Decimal: quotients of at most 2^53 units, which are one IEEE division of exact operands.
- RunnerVolumes.RunnerVolume.Add: scaling a binary64 quantity to grid units is an arbitrary function, and the compensated sum used off the grid is not modelled.
- ChainBarsBuilder.ChainBars.Add: a minute's volume is the exact sum of its quantities, and the 64 MiB and 100000-minute bounds are not modelled.
- CompileCaches.CompileCache.Trim: files removed by another process between listing and removal.
- CompileCaches.CompileCache.CancelAcquire: the time stamp its thread may still set later, and the unguarded `lookup` and `commit`.
- Sockets, TLS, WebSocket framing, HTTP pacing, clocks and keep-alives, the venue row decoders, zip headers and checksums, configuration, `main.cpp`, the Python providers and services, and release scripts.
