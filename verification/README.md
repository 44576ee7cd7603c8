# Polysim, modelled and proved in Dafny

Polysim is a trading engine made of small deterministic state machines with the I/O pushed outward: a hot
thread that folds market data into books, a ledger and short windows, and writers, a UDP link and a workstation
around it. This project models those machines and proves what they are for. Each module follows one component:

- **Order-book replication.** `Book` (one side and the book), `Chunk` (cutting a book into fixed-width
  messages), `Depth` (the sequencer that splices venue diffs onto a snapshot), `Replication` (all three
  composed: the hot book is the venue's book).
- **Money.** `Ledger` (average-cost basis in truncating integers), `Decimal` (text to fixed point, grid
  rounding), `Format` (the printer that the parser undoes), `Axis` (chart ticks), `Dom` (the bucketed depth
  ladder), `Calendar` (day counts and dates).
- **Windows.** `Series` (a sliding window in a linear buffer), `History` (a bounded ring with a span splice).
- **Recording.** `Table`, `Persist`, `PersistRun` (rows and seals through a bounded ring into files),
  `Exposure` (the newest-wins position lane).
- **Link.** `Wire`, `Feed` and `Frame` (the datagram codec: fields and records, the nested event and history
  bodies, whole datagrams), `WireBytes`, `FeedBytes` and `FrameBytes` (which byte holds what), `Gate` (the
  sequence gate and the subscriber table), `Catalog` (a catalog rebuilt from loose frames), `Session` (the
  workstation's end), `Outbox` (the claims it sends), `RunControl` (run control over a lossy lane).
- **Inputs.** `Tap` (one producer, two rings, a gate that closes meanwhile), `Kline` (backfilled and live
  candles merged).
- `Common`, `Arith` and `Rings` hold shared vocabulary, arithmetic and the bounded FIFO.

An object whose methods update fields is a class here, with one method per original method; its contract ties
the new state to a function on values, and the theorems are about that function over whole runs. Concurrent
parts are runs of steps, and the theorems hold for every order of them. In `Tap` and `Exposure` a step is one
ring operation, one load or one write. In `RunControl` and `PersistRun` a step may decide and push at once;
`RunControl.LatePushIsEarlyPush` and `PersistRun.FlushingPushIsRetryThenPush` say why that hides no order of the
two. Widths are explicit: a value that leaves `i64` is `None` or `false` where the program panics, and division
truncates, floors or is Euclidean as the program's does. The venue, the clock, the file system and the network
enter as parameters or as steps with an outcome.

Where the code and its comments or documentation disagree, the model follows the code:

- `LevelState` documents Absent as "no level here". After a trim a price can read Absent while an unbounded
  book holds it; `Book.AbsentCanHideATrimmedLevel` gives such a history, and `Book.TrimBoundaryIsSharp` the
  exact condition: the levels held and the best trim guarantee the reading if and only if it is Present or the
  price is strictly better than every trim.
- The position writer says a failed write is retried on the next change; it is retried on every poll
  (`Exposure.WriterState.Poll`). Its `written_seq` is documented as empty until the first write; it starts at
  zero, so an unchanged position is never rewritten.
- Run-control epochs are `u64`, but a cell has room for 63 bits of epoch. A run always reads back what it last
  accepted if and only if the highest claim heard, with one more for each controller lost after it, is below
  2^63 (`RunControl.ReadsBackExactlyBelowTheLimit`). Two runs that fail: a claim at 2^63
  (`RunControl.EpochsPastTheLimitAreLost`), and a claim at 2^63 - 1 whose controller is then lost
  (`RunControl.LosingTheControllerCanPassTheLimit`).
- The ledger's debug assertion calls a fill of zero size legitimate and admits one with a positive value, which
  moves the basis and not the position. `Ledger.UnsignedFillsKeepCoherentExactly` says on exactly which rows that
  leaves the basis coherent; `Ledger.PayingForNothingLeavesABasis` and `Ledger.PayingForNothingTurnsABasis` are
  two on which it does not, a flat one and a long one. No such fill arrives: its only caller
  (src/hot/exec/event.rs:117) drops empty fills, and the fold before it yields a positive size or nothing
  (`Ledger.ReportsAreBookedOnce`, `Ledger.BookedFillsArePlain`).
- A rung of the axis ladder whose first multiple does not fit `i64` is passed over, however few it has in the range.
  The finest rung free of crowding is drawn if and only if it can be measured (`Axis.FinestIsDrawnExactly`), which
  it always can a coarsest step away from both ends (`Axis.NothingIsSkippedAwayFromTheEnds`);
  `Axis.TheEndsCanGoUnlabelled` is a range at the very end that gets no ticks at all.

`dafny verify dfyconfig.toml` checks everything.

## Model

| member | source | states |
|---|---|---|
| Book.Search | src/hot/book.rs:111-114 | A found index holds the price; a missing one splits a sorted side into strictly better and strictly worse levels |
| Book.ApplyKeepsFaithful | src/hot/book.rs:124-163 | One level keeps a side strictly sorted, within capacity, every held quantity the unbounded map's, and every price better than all trims held if that map has it |
| Book.RunKeepsFaithful | src/hot/book.rs:165-178 | Any run of levels keeps all of that, and the map it agrees with is the unbounded fold of the whole run |
| Book.LevelStateIsSound | src/hot/book.rs:116-122 | Present is always the unbounded book's quantity; at any price strictly better than everything trimmed since the last clear, Present is exactly "has a level" |
| Book.LevelStatesAreToldApart | src/hot/book.rs:116-122 | Present is exactly a held level's quantity, BeyondDepth exactly a price worse than every held level, and Absent exactly a hole with a worse level behind it |
| Book.SidesAreBestFirst | src/hot/book.rs:97-104 | Bids descend and asks rise, so the first level of a side is its best |
| Book.TrimBoundaryIsSharp | src/hot/book.rs:116-163 | Whatever levels a side has been through, its reading at a price is right in every history that ends in the same levels and best trim if and only if it is Present or the price is strictly better than every trim |
| Book.BehindTheBoundary | src/hot/book.rs:155-163 | Otherwise two histories are built that end in that same side, one with a level at the price in the unbounded book and one without |
| Book.AbsentCanHideATrimmedLevel | src/hot/book.rs:116-122 | A concrete history on which a price reads Absent although the unbounded book holds it |
| Book.RefinesCappedModel | tests/fitness/book_reconstruction.rs:46-69 | One level applied to a side is one step of the capped map that evicts its worst price unless the newcomer is worse still |
| Book.BookSide.Apply | src/hot/book.rs:124-143 | The in-place edit is the step the lemmas above are about, outcome included |
| Book.BookSide.InsertNew | src/hot/book.rs:145-153 | A new level goes in at its place, or through the capacity rule |
| Book.BookSide.InsertAtCapacity | src/hot/book.rs:155-163 | At capacity the worst level makes room unless the new one is deeper; the first trim of an episode is told apart |
| Book.BookSide.ApplyAll | src/hot/book.rs:165-178 | The loop over a chunk's levels is their fold |
| Book.Book.ApplySnapshot | src/hot/book.rs:252-266 | A snapshot chunk on a valid book resets it first and says so; the last chunk makes the book valid and has its top judged |
| Book.Book.ApplyDelta | src/hot/book.rs:268-278 | A delta chunk is ignored until a snapshot has completed; after that the last chunk of a delta has the top judged |
| Book.Book.ApplyReset | src/hot/book.rs:244-250 | A reset book is the empty book awaiting a snapshot |
| Book.Book.CheckCrossed | src/hot/book.rs:387-404 | Crossed and locked tops are each counted; an episode is entered only by crossing and left only by an uncrossed, unlocked or one-sided top |
| Book.ChunkKeepsFaithful | src/hot/book.rs:252-278 | Any chunk, snapshot or delta, keeps both sides faithful |
| Chunk.SideIsCarriedWhole | src/adapters/chunk.rs:79-92 | A side's chunks carry its levels whole and in order for that side only, all but the last are full, and only the last can close the book |
| Chunk.BookIsCarriedWhole | src/adapters/chunk.rs:57-92 | A cut book carries both sides whole, with exactly one terminating chunk at its end; a snapshot always sends one and an empty delta nothing |
| Chunk.ChunksFollowThePlan | src/adapters/chunk.rs:94-120 | Every chunk carries the kind, update id and stamps of the book it was cut from |
| Chunk.DeltaFoldsWhole | src/adapters/chunk.rs:57-120 | A delta cut into chunks and folded into a valid book does exactly what its levels do |
| Chunk.SnapshotFoldsWhole | src/hot/book.rs:252-266 | A snapshot cut and folded in, on top of anything, leaves a valid book built from the snapshot alone |
| Chunk.DeltasWaitForASnapshot | src/hot/book.rs:252-277 | Until a snapshot completes the book is not valid and deltas, wherever they come, leave no trace |
| Chunk.ChunkEmitter.EmitBook | src/adapters/chunk.rs:57-77 | The emitter sends exactly the chunks those lemmas are about |
| Chunk.ChunkEmitter.EmitSide | src/adapters/chunk.rs:79-92 | The loop over groups of twenty is the cut, the terminating mark on the last group only |
| Chunk.ChunkEmitter.CutChunk | src/adapters/chunk.rs:94-120 | The fixed array holds the group and zeros past it |
| Chunk.ChunkEmitter.ClampEmitTs | src/adapters/chunk.rs:45-55 | A stamp is never below any stamp or floor before it |
| Depth.DepthSequencer.HandleDiff | src/adapters/binance/depth.rs:77-86 | A diff is applied, buffered or dropped as the state demands, with exactly the messages of the sequencer's step |
| Depth.DepthSequencer.OnDiffLive | src/adapters/binance/depth.rs:88-107 | While live a chaining diff is sent, a spot diff already covered is dropped, and any other starts a resync |
| Depth.DepthSequencer.BufferDiff | src/adapters/binance/depth.rs:118-134 | The buffer is bounded; a diff that does not fit starts it over from itself, and says so |
| Depth.DepthSequencer.StartResync | src/adapters/binance/depth.rs:136-153 | A broken chain resets the hot book once and restarts the buffer from the diff that broke it |
| Depth.DepthSequencer.HandleSnapshot | src/adapters/binance/depth.rs:155-198 | A snapshot is spliced on only when what is left of the buffer chains from it |
| Depth.DepthSequencer.BufferChainsFrom | src/adapters/binance/depth.rs:200-226 | The moving-anchor loop decides exactly whether the buffer spans the seam and then chains without a hole |
| Depth.DepthSequencer.SendDelta | src/adapters/binance/depth.rs:228-242 | A sent diff moves the update id to its own end |
| Replication.DeltaAdvances | src/adapters/binance/depth.rs:228-242 | One sent delta moves a faithful valid book from any venue state in its range to the venue state at its end |
| Replication.DeltasAdvance | src/adapters/binance/depth.rs:155-226 | A buffered run that passes the chain check takes the snapshot's book through every state to the last diff's |
| Replication.DiffKeeps | src/adapters/binance/depth.rs:77-153 | Whatever a diff makes the sequencer do, the invariant below survives it |
| Replication.SnapshotKeeps | src/adapters/binance/depth.rs:155-226 | So it does any snapshot, in any state, live ones included |
| Replication.EveryRunReplicates | src/adapters/binance/depth.rs:77-242 | Over every interleaving, for both chain rules, the hot book is valid exactly when the sequencer is live, and its unbounded contents are then the venue's book at the sequencer's update id, only held levels being limited by capacity |
| Replication.FollowingDiffIsApplied | src/adapters/binance/depth.rs:88-101 | A diff that follows a live book is sent as deltas under one stamp, folds in whole and moves the update id to its end |
| Replication.HeldDiffIsIgnored | src/adapters/binance/depth.rs:102-104 | A spot diff that ends at or before the update id changes nothing and sends nothing |
| Replication.BrokenChainResets | src/adapters/binance/depth.rs:105-152 | Any other diff, while live, sends exactly one reset, empties the book, and leaves the sequencer awaiting a snapshot with that diff alone buffered |
| Replication.NothingIsSilentlyAhead | src/adapters/binance/depth.rs:88-107 | After any diff a live sequencer is at or past the diff's last update; if it is not live, one reset went out and the diff is the buffer |
| Replication.UnbrokenFeedsAdvance | src/adapters/binance/depth.rs:88-116 | Progress: after any run that ends live, a feed in sequence keeps the book live and takes it to the venue's book at the last diff |
| Replication.AwaitingDiffIsKept | src/adapters/binance/depth.rs:118-134 | Until a snapshot comes a diff is kept behind the others, or alone once the buffer is full, and nothing is sent |
| Replication.SnapshotSplicesExactly | src/adapters/binance/depth.rs:155-226 | A snapshot makes the sequencer live if and only if it has levels and the diffs past it go on from it; the book is then the snapshot and those diffs, and otherwise unchanged |
| Replication.SnapshotsAreSentFirst | src/adapters/binance/depth.rs:176-187 | The messages of an accepted snapshot begin with its own chunks, at its update id, without a venue stamp and under one receive stamp |
| Replication.NoticesRaiseTheFloor | src/adapters/binance/depth.rs:71-74 | A notice raises the stamp floor and does nothing else |
| Replication.ReadingsAreTheVenues | src/hot/book.rs:116-122 | So at any time a Present reading is the venue's own quantity, and above the trim line presence is exact |
| Replication.StampsNeverDecrease | src/adapters/chunk.rs:45-55 | Over any run, resyncs included, emitted receive stamps never step back |
| Replication.DeltasFoldWhole | src/adapters/binance/depth.rs:189-193 | The deltas of a buffered run fold into a valid book as all their levels in order |
| Table.PushAppends | src/persist/table.rs:64-86 | A pushed row is appended to everything the table has taken, no file passes the cap, a file keeps to its hour, and closed files are never touched |
| Table.SealKeepsRows | src/persist/table.rs:88-110 | Sealing closes every row into files without losing, repeating or reordering one, and leaves nothing open |
| Table.HourBucket | src/persist/table.rs:196-198 | The hour a stamp falls in, counted from the epoch and downwards before it |
| Table.RowsOfAnHourShareAFile | src/persist/table.rs:64-81 | A row of an hour not past the open file's goes into that file, behind its rows; the file closes exactly when it is full |
| Table.LaterHoursOpenAFile | src/persist/table.rs:65-74 | A row of a later hour closes the open file, with every row waiting for it, and opens the next in its own hour |
| Table.RowsWaitForABatch | src/persist/table.rs:74-77 | Rows wait in memory until a thousand have come and are then all written |
| Table.TableWriter.Push | src/persist/table.rs:64-86 | The writer's push is that step |
| Table.TableWriter.SealFile | src/persist/table.rs:88-110 | Its seal is that seal; a table with nothing open is left alone |
| Table.TableWriter.WriteRows | src/persist/table.rs:117-140 | Pending rows move to the open file, in order |
| Table.TableWriter.OpenFile | src/persist/table.rs:142-163 | Sequence numbers are handed out once each |
| Persist.PersistSink.Push | src/sink/latched.rs:24-34 | A latched seal goes ahead of the row; a row that finds no room is dropped and counted |
| Persist.PersistSink.Request | src/sink/latched.rs:36-40 | A seal request is in the ring or latched, never neither |
| Persist.PersistSink.Retry | src/sink/latched.rs:42-47 | A retry pushes the latched seal as soon as there is room |
| Persist.WriterState.RouteOne | src/persist/drain.rs:197-215 | A row reaches its named table or is counted as unnamed; a seal record seals every table |
| Persist.WriterState.SealEvery | src/persist/drain.rs:228-240 | Every table is sealed, whatever order they are visited in |
| Persist.WriterState.ConsumeBatch | src/persist/drain.rs:169-185 | One pass takes at most a batch from each lane, in order, and reports whether it took anything |
| Persist.WriterState.Finish | src/persist/drain.rs:136-195 | The last pass empties both lanes, in order, and then seals every table |
| Persist.RowsAreAppended | src/persist/drain.rs:197-215 | Rows routed to a table are appended to what it holds, in order |
| PersistRun.EveryRunIsKept | src/persist/drain.rs:136-195 | Every interleaving of pushes, seal requests, retries, pops and timer seals keeps the lane's invariant |
| PersistRun.AcceptedRowsLandOnce | src/persist/drain.rs:187-240 | Files then ring hold exactly the rows accepted for a named table, each once and in order; no file passes the cap; every row offered was accepted or counted as dropped |
| PersistRun.OfferedRowsAreAcceptedWhileThereIsRoom | src/sink/latched.rs:24-32 | An offered row is accepted behind everything else while there is room, a latched seal first; it is counted as dropped exactly otherwise, and then the ring is left full |
| PersistRun.SealsAreAcceptedWhileThereIsRoom | src/sink/latched.rs:36-39 | A seal asked for is accepted at once while there is room and latched exactly otherwise |
| PersistRun.RetriesLandTheSeal | src/sink/latched.rs:42-53 | A latched seal is accepted by the first retry that finds room; a retry does nothing else |
| PersistRun.OnePopLandsASeal | src/sink/latched.rs:42-53 | After any run, one pop and one retry leave no seal latched |
| PersistRun.UnnamedRowsAreCounted | src/persist/drain.rs:197-215 | Over any run the unnamed rows counted are exactly those taken whose table has no name |
| PersistRun.SealsAreNeverLost | src/sink/latched.rs:36-53 | A requested seal is still latched with nothing accepted behind it, or sits in the stream exactly where it was asked for; once consumed, closed files hold exactly the rows accepted before it, and no later row joins them |
| PersistRun.DrainLeavesNothingOpen | src/persist/drain.rs:136-195 | After any run, popping until the ring is empty and then sealing leaves every row ever accepted for a named table in its closed files, in order, and nothing open or pending |
| PersistRun.PopsRouteTheRing | src/persist/drain.rs:187-195 | Popping one at a time routes the front of the ring in order and nothing else |
| PersistRun.FlushingPushIsRetryThenPush | src/sink/latched.rs:24-47 | A push that first flushes a latched seal is a retry and then a push, so nothing can come between them that runs do not already cover |
| PersistRun.RotationsLandOnce | src/persist/drain.rs:169-195 | The rotations table holds exactly the rotation rows taken, each once and in order, whatever seals come between |
| PersistRun.DrainClosesTheRotations | src/persist/drain.rs:136-195 | And the final drain leaves them all in closed files |
| Exposure.ExposureSink.Push | src/sink/replacing.rs:49-54 | A push replaces a waiting snapshot, counts it as superseded and tries the ring |
| Exposure.ExposureSink.Retry | src/sink/replacing.rs:57-62 | The waiting snapshot leaves only by entering the ring |
| Exposure.ExposureSink.Flush | src/sink/replacing.rs:19-38 | The destructor's loop is bounded, and gets the final snapshot into the ring if there was room or the writer pops once before the last attempt |
| Exposure.WriterState.DrainToLatest | src/exposure/writer.rs:154-158 | Only the newest of what was waiting is kept, and the ring is left empty |
| Exposure.WriterState.Write | src/exposure/writer.rs:160-172 | The file is replaced only by a changed state and only when the write takes |
| Exposure.WriterState.Poll | src/exposure/writer.rs:133-151 | One turn of the loop drains, writes if changed and counts a failure |
| Exposure.SeedRows | src/exposure/writer.rs:93-104 | The first snapshot keeps restored rows from the front, as many as fit |
| Exposure.EveryRunIsKept | src/sink/replacing.rs:49-62 | Every interleaving of pushes, retries, single pops and writes keeps the invariant of the lane |
| Exposure.StepsAreTheCalls | src/exposure/writer.rs:133-172 | Left alone, single pops until the ring is empty and then a write are one turn of the loop, and a push and a retry are the sink's own |
| Exposure.PushesEnterWhileThereIsRoom | src/sink/replacing.rs:49-54 | A pushed snapshot is in the ring at once while there is room and waits otherwise; one it finds waiting is counted as superseded |
| Exposure.RetriesEnterWhenThereIsRoom | src/sink/replacing.rs:57-62 | A waiting snapshot enters at the first retry that finds room; a retry does nothing else |
| Exposure.WriterWritesWhatChanged | src/exposure/writer.rs:154-172 | A pop takes the oldest snapshot; a write replaces the file exactly when the newest has an unwritten number and the write takes, and each refusal is counted |
| Exposure.DeliveredInOrder | src/sink/replacing.rs:49-62 | Snapshots reach the writer as a subsequence of those pushed, in order; pushed = delivered + superseded + pending |
| Exposure.QuietFileIsNewest | src/exposure/writer.rs:133-172 | With nothing pending, the ring empty and the last write taken, the file is the newest snapshot, or the restored one if none was pushed |
| Exposure.EveryRunCanSettle | src/exposure/writer.rs:133-172 | From any run, popping what is there, a retry, one more pop and a write that takes leave the newest snapshot on disk |
| Series.WindowSlides | src/hot/series.rs:188-203 | The last `window` items after a push are the last `window` before it, less the oldest of a full window, plus the new one |
| Series.SumSlides | src/hot/series.rs:28-36 | Adding the newcomer and subtracting the evicted item keeps the exact sum of the window |
| Series.FastQueue.constructor | src/hot/series.rs:106-122 | A fresh queue is empty at the front of its buffer |
| Series.FastQueue.AsSlice | src/hot/series.rs:126-128 | The slice is exactly the last `window` items pushed since the last clear |
| Series.FastQueue.SumOrPanic | src/hot/series.rs:45-48 | The sum is the window's exact sum, and is refused exactly when that leaves `i64` |
| Series.FastQueue.Clear | src/hot/series.rs:166-173 | A cleared queue has the physical state of a fresh one |
| Series.FastQueue.Push | src/hot/series.rs:188-203 | The window slides by the item, and over any run no more items have been moved than pushed |
| Series.FastQueue.CopyBack | src/hot/series.rs:206-215 | Relocation makes room and changes nothing observable: the window, its sum and the push count stay, and moves stay within pushes |
| Series.FastQueue.RecomputeSums | src/hot/series.rs:217-225 | The recomputed sum is the live slice's exact sum |
| History.InsertKeepsHighest | src/workstation/history.rs:82-98 | Streaming an item through a bounded store keeps it the highest of everything streamed, counted at every index |
| History.SortIsOrdered | src/workstation/history.rs:65-80 | The sort leaves the items in index order |
| History.SortKeepsHighest | src/workstation/history.rs:65-80 | And leaves the same items: still the highest of the pool |
| History.SortIsStable | src/workstation/history.rs:77-77 | Items of one index keep their order |
| History.NewcomersReplaceTheLowest | src/workstation/history.rs:82-98 | Into a full store an item not below all it holds goes behind the rest, and the earliest of the lowest makes room |
| History.PoolTakesTheSpan | src/workstation/history.rs:73-76 | A splice chooses among the incoming items from the span's start to before its end and the held ones elsewhere, each as often as it came |
| History.FittingPoolsAreKeptWhole | src/workstation/history.rs:62-78 | Where all of those fit, none is lost |
| History.BoundedHistory.Push | src/workstation/history.rs:29-40 | The contents become the last `capacity` of what they were plus the item, wrapped or not |
| History.BoundedHistory.IterOldestFirst | src/workstation/history.rs:48-54 | The walk yields the contents, oldest first, across the wrap |
| History.BoundedHistory.SetLast | src/workstation/history.rs:56-61 | Only the newest item changes |
| History.BoundedHistory.ReplaceSpan | src/workstation/history.rs:65-80 | The store ends sorted by index, holding the `capacity` highest of the held items outside the span and the incoming ones inside it, wrapped or not |
| History.BoundedHistory.InsertWithinCapacity | src/workstation/history.rs:82-98 | A full store drops its lowest item for a higher one and refuses a lower one |
| Ledger.FillKeepsCoherent | src/hot/ledger.rs:79-101 | After any fill the basis has the position's sign or is zero, and a flat position has none |
| Ledger.RunKeepsCoherent | src/hot/ledger.rs:148-179 | So after any run of fills |
| Ledger.FillsGoThroughExactly | src/hot/ledger.rs:148-179 | A buy adds its size and pays its value, a sell the reverse, both pay the commission; a fill goes through exactly when no amount leaves i64, and a closing fill's basis never does |
| Ledger.OpeningRealisesOnlyCommission | src/hot/ledger.rs:79-101 | Opening or adding moves the realised result by the commission alone |
| Ledger.ClosingRealisesTheClosedShare | src/hot/ledger.rs:79-101 | Closing realises the closed share of the fill's worth less that of the position's cost, each cut to whole units, less commission |
| Ledger.MoneyIsConserved | src/hot/ledger.rs:148-179 | Over any run position and cash move by exactly what was traded and paid; a run that starts and ends flat realises exactly that, however it was sliced |
| Ledger.BasisTracksAverageCost | src/hot/ledger.rs:79-101 | The integer basis stays within one unit per closing fill, since last flat, of exact rational average cost, on one side of it |
| Ledger.FlatPnlIsRealised | src/hot/ledger.rs:49-73 | While flat, profit is the realised result, whatever the mark |
| Ledger.ProfitIsRealisedAndOpen | src/hot/ledger.rs:49-73 | Profit is the realised result and, at a mark, the position's worth beyond its cost; without a mark it is the cash |
| Ledger.FillsAtTheMarkMakeNothing | src/hot/ledger.rs:49-73 | A fill at the mark moves profit by its commission and at most one unit of rounding |
| Ledger.SessionsRealiseTheirFills | src/hot/ledger.rs:63-73 | Over any run of plain fills a session's result is what has been realised since boot, and from flat to flat exactly what the fills paid and received |
| Ledger.PositionLedger.Restore | src/hot/ledger.rs:105-127 | Each row boots from the last exposure that names it, unknown instruments are skipped, nothing counts as realised this session, and only a result that does not fit is refused |
| Ledger.NothingAfterTheLast | src/hot/ledger.rs:105-127 | That exposure is the last that names the row, and there is none exactly when none does |
| Ledger.PositionLedger.ApplyFill | src/hot/ledger.rs:148-179 | One row moves by the fill, the others not at all; refused exactly when a value leaves `i64`; a row stays coherent under any fill that is not a payment for nothing |
| Ledger.UnsignedFillsKeepCoherentExactly | src/hot/ledger.rs:79-101 | An unsigned fill keeps a coherent row coherent exactly when nothing is worth nothing, or the row has a position and the value is on its side or within its basis |
| Ledger.PayingForNothingLeavesABasis | src/hot/ledger.rs:148-179 | A fill of nothing worth five leaves a flat row with a basis of five |
| Ledger.PayingForNothingTurnsABasis | src/hot/ledger.rs:148-179 | The same sold into a long row with a basis of three turns the basis negative |
| Ledger.OrderSlot.FoldFill | src/hot/exec/order.rs:218-232 | A report beyond what the order holds adds the difference, once; any other adds nothing and changes nothing |
| Ledger.ReportsAreBookedOnce | src/hot/exec/event.rs:110-131 | However an order's reports are repeated or reordered, what is booked adds up to the furthest of them, and every booked fill has a positive size |
| Ledger.UnsignedReportsAreBooked | src/hot/exec/order.rs:218-232 | Reports of totals that are never negative are all booked |
| Ledger.BookedFillsArePlain | src/hot/exec/event.rs:110-131 | So while more base is never worth less quote, every fill booked is one that keeps its row coherent |
| Ledger.PositionLedger.RollBasis | src/hot/ledger.rs:79-101 | The in-place roll is the basis the lemmas above are about |
| Ledger.PositionLedger.SetMark | src/hot/ledger.rs:181-184 | Only the mark of one row moves |
| Ledger.PositionLedger.ResetInstrument | src/hot/ledger.rs:198-202 | A reset row is empty and every other row is untouched |
| Calendar.YearOfEraFinds | src/time.rs:155-168 | The quotient formula finds the year whose first and last day enclose a day of the era |
| Calendar.CountsDayByDay | src/time.rs:155-168 | For every day count the date is valid under the leap rule of RFC 3339 section 5.7 and Appendix C, the next count is the calendar's next date, and zero is 1970-01-01 |
| Calendar.LaterDaysAreLaterDates | src/time.rs:155-168 | Later days have later dates |
| Calendar.EveryDateIsOneDay | src/time.rs:155-168 | Every valid date is the date of exactly one day: the map is a bijection |
| Calendar.CivilLosesNothing | src/time.rs:31-55 | The clock fields are in range and with the day give the instant back, before the epoch as after it |
| Calendar.CivilIsInjective | src/time.rs:31-55 | Two instants with one breakdown are one instant |
| Wire.FieldRoundTrip | src/link/wire.rs:15-126 | A field of any kind, written and read back, is itself |
| Wire.ReadFits | src/link/wire.rs:19-126 | Whatever reads is a value the field can hold |
| Wire.RecordRoundTrip | src/link/wire.rs:131-169 | A record of any layout survives being written and read, field by field in declaration order |
| Wire.ReadRecordFits | src/link/wire.rs:131-169 | Every value of a record that reads is one its field can hold |
| Wire.ByteWriter.Write | src/link/envelope.rs:332-344 | The cursor writes the record's bytes in place and touches nothing else |
| Wire.ByteReader.Read | src/link/envelope.rs:353-379 | The cursor reads what the function reads, and stops exactly after it |
| WireBytes.BytesAreDigits | src/link/wire.rs:19-32 | Byte i of a number of any width is its i-th digit in base 256, lowest first |
| WireBytes.ReadingAddsUp | src/link/wire.rs:27-30 | A number read is the sum of its bytes, each times 256 to its place |
| WireBytes.SignedBytes | src/link/wire.rs:19-32 | A negative number is written in two's complement |
| WireBytes.FieldIsLaidOut | src/link/wire.rs:19-126 | A field of every kind is written as its bytes: presence before value, tag in one byte, count in two, length before name |
| WireBytes.NumbersReadWhatIsThere | src/link/wire.rs:19-48 | A number that reads is the one its bytes hold |
| WireBytes.RecordIsLaidOut | src/link/wire.rs:131-169 | A record of any layout lies field after field with no gap |
| WireBytes.RecordsReadWhatIsThere | src/link/wire.rs:131-169 | What a record of numbers, counts and blocks reads is what lies in each place |
| WireBytes.TextIsAccepted | src/link/envelope.rs:247-266 | The UTF-8 bytes of any run of scalar values are accepted as a name's text |
| WireBytes.AcceptedIsText | src/link/envelope.rs:247-266 | And every accepted run of bytes is the UTF-8 of some run of scalar values |
| Feed.ShapeRoundTrip | src/link/feed/mod.rs:137-210 | A tagged body of any shape, shared fields, own fields and padding, nested as deep as it likes, survives being written and read |
| Feed.AllRoundTrip | src/link/feed/history.rs:34-125 | So does any run of such bodies |
| Feed.ReadHolds | src/link/feed/mod.rs:154-175 | Whatever reads is something the shape can hold |
| Feed.ReadAllHolds | src/link/feed/history.rs:73-135 | Likewise for a run of them |
| Feed.DetailIsSound | src/link/feed/mod.rs:230-251 | An order snapshot passes exactly when every order it lists is working and no two share a client id |
| Feed.PaddingIsNotRead | src/link/feed/mod.rs:154-175 | Bodies that agree up to the end of their own fields read the same |
| Feed.TakeChoice | src/link/feed/mod.rs:154-175 | Reading a tagged body in place reaches the same verdict and stops after its own fields |
| Feed.TakeShape | src/link/feed/history.rs:73-100 | Where the whole width is wanted, the padding is skipped |
| Feed.EventSpan | src/link/feed/mod.rs:25-51 | Every event takes 295 bytes |
| Feed.WidestEvent | src/link/feed/mod.rs:28-51 | No event has more fields of its own than the order snapshot, and no other as many |
| Feed.EventEnds | src/link/feed/mod.rs:137-175 | An event that reads ends inside its body, and at the end of it exactly when it is an order snapshot |
| Feed.HistorySpan | src/link/feed/history.rs:12-28 | A history chunk takes 1111 bytes |
| FeedBytes.ShapeIsLaidOut | src/link/feed/mod.rs:137-152 | A tagged body lies as its tag, its own fields in order, and zeros up to the widest body |
| FeedBytes.AllAreLaidOut | src/link/feed/history.rs:34-71 | A run of bodies lies one after another |
| FeedBytes.OrderSnapshotsAreTakenExactly | src/link/feed/mod.rs:212-251 | From the bytes of a listing: it is taken if and only if its fields read, at most eight orders are listed out of a total of at most 288, each is in a working state and no two share a client id |
| Frame.TopicWidth | src/link/frame.rs:251-262 | Every topic's declared length is the width of its layout, and every datagram fits the buffer |
| Frame.DatagramRoundTrip | src/link/frame.rs:173-262 | Every well-formed datagram meant for this guard, whatever its body, decodes to itself |
| Frame.DecodedIsWellFormed | src/link/frame.rs:203-262 | Whatever decodes was meant for this guard, is well formed, and is exactly as long as what it encodes to |
| Frame.DecodeStopsAtTheEnd | src/link/feed/mod.rs:137-175 | A datagram that decodes is read to its last byte exactly when it is no event or an order snapshot; every other event ends short of it, with its own fields |
| Frame.PastTheEndMeansNothing | src/link/feed/mod.rs:137-175 | Any datagram as long that agrees up to that end decodes to the same |
| Frame.ReencodingIsNormal | src/link/frame.rs:173-262 | What decoded re-encodes to bytes that decode to it again, whatever garbage the original carried in ignored places |
| Frame.EncodingIsInjective | src/link/frame.rs:173-197 | No two datagrams share an encoding |
| FrameBytes.DatagramIsLaidOut | src/link/frame.rs:173-197 | A datagram's bytes are its envelope's fields and then its body's, each in its place |
| FrameBytes.EnvelopeOnTheWire | src/link/envelope.rs:156-168 | Magic, version, topic, the three hashes, the boot stamp, the sequence number and the authenticator lie at bytes 0, 4, 6, 8, 16, 24, 32, 40 and 48, lowest byte first |
| FrameBytes.EnvelopeIsReadInPlace | src/link/envelope.rs:156-168 | Any 80 bytes read as the envelope that lies at those places |
| FrameBytes.SubscriptionOnTheWire | src/link/control.rs:90-155 | Topic count, sixteen slots with zeros past the count, run state under its own number and epoch each lie at their place |
| FrameBytes.LifecycleOnTheWire | src/link/control.rs:90-178 | So do the fields of a lifecycle report, its phase, mode and states under their own numbers |
| FrameBytes.InstrumentOnTheWire | src/link/control.rs:181-211 | So do those of a catalog instrument |
| FrameBytes.FeatureOnTheWire | src/link/control.rs:214-226 | So do those of a catalog feature |
| FrameBytes.BookOnTheWire | src/link/feed/mod.rs:54-124 | So do those of a book snapshot, thirty-two slots of price and quantity a side |
| FrameBytes.PayloadOnTheWire | src/link/frame.rs:66-99 | So do those of a strategy payload |
| FrameBytes.FeedOnTheWire | src/link/feed/mod.rs:137-210 | Events and history chunks lie from byte 80 on as their shapes say |
| FrameBytes.TopicsHaveTheirNumbers | src/link/frame.rs:238-262 | Each kind of body travels under its topic number, and a datagram is 80 bytes longer than that topic's body |
| FrameBytes.FaultsAreToldInOrder | src/link/frame.rs:203-235 | A refusal names the first fault in order: length of the envelope, magic, version, token, strategy, topic, length of the body, schema |
| FrameBytes.FieldFaultsAreTold | src/link/wire.rs:19-126 | A field is refused exactly for a count past its limit, an unknown tag, or a name that is too long or is no text, and the fault names it |
| Frame.SubscribeFits | src/link/control.rs:122-155 | A subscription's topic slots and count survive their layout |
| Frame.LifecycleFits | src/link/control.rs:159-178 | So does a lifecycle report |
| Frame.InstrumentFits | src/link/control.rs:181-211 | So does a catalog instrument |
| Frame.FeatureFits | src/link/control.rs:214-226 | So does a catalog feature |
| Frame.FeedFits | src/link/feed/mod.rs:137-210 | So do an event of every kind and a history chunk |
| Frame.Encode | src/link/frame.rs:173-197 | The front of the caller's buffer becomes the datagram, the rest of it is untouched, and its length is returned |
| Frame.TakeBody | src/link/frame.rs:220-233 | The cursor reads a body field by field, an event no further than its own fields, and reaches the verdict of the function |
| Frame.Decode | src/link/frame.rs:203-235 | Moving a cursor over the bytes reaches the verdict the lemmas are about, never reads past the datagram, and on success stops exactly where its own bytes end |
| Gate.OwnStream | src/link/subscribers.rs:116-145 | A tracked stream accepts a frame exactly when it is ahead in boot then sequence; otherwise only the time it was heard changes |
| Gate.OtherStreams | src/link/subscribers.rs:152-180 | No other stream changes, unless the gate was full, the arrival new to it, and that stream silent for a whole TTL |
| Gate.NewStreamsAreAcceptedExactly | src/link/subscribers.rs:152-180 | The first frame of a stream is accepted if and only if a slot is free or some slot has been silent for a whole TTL; the slot given up is one heard from longest ago, and every other stays |
| Gate.TrackedVerdictsSayWhy | src/link/subscribers.rs:116-145 | For a tracked stream each verdict is given exactly for its reason: newer boot, higher sequence, older boot, or repeat, with the value it lost to |
| Gate.GateStaysSound | src/link/subscribers.rs:116-171 | Over any run slots are unique per stream and never exceed the gate's capacity |
| Gate.PositionAdvances | src/link/subscribers.rs:116-145 | While a stream stays tracked its position only moves forward |
| Gate.AcceptedFramesIncrease | src/link/subscribers.rs:116-171 | Until its slot is evicted, a stream's accepted frames strictly increase in boot then sequence |
| Gate.HeardIsTracked | src/link/subscribers.rs:152-180 | A stream heard from is remembered for a whole TTL |
| Gate.InOrderWithinTtl | src/link/subscribers.rs:116-180 | So two frames of one stream accepted less than a TTL apart are in order, however full the gate was |
| Gate.SequenceGate.AdmitFrame | src/link/subscribers.rs:116-145 | The gate's admission is that step; each verdict is counted, and so is a slot taken from a stream that had gone silent |
| Gate.SequenceGate.TrackFrame | src/link/subscribers.rs:152-171 | A newcomer takes a free slot, or the stalest expired one, or is turned away |
| Gate.SubscriberTable.Refresh | src/link/subscribers.rs:40-61 | A datagram adds or renews its address for a TTL; the aged go first; a full table refuses newcomers and never drops a live subscriber |
| Catalog.AcceptingInstrumentKeeps | src/workstation/link_model.rs:197-213 | Any instrument frame leaves held ids distinct and from one stamp |
| Catalog.AcceptingFeatureKeeps | src/workstation/link_model.rs:215-227 | So does any feature frame |
| Catalog.InstrumentFrameIsTaken | src/workstation/link_model.rs:197-213 | An instrument frame not older than what is held is taken, replacing the one of its id and no other, while its id is held or the announced total is not reached |
| Catalog.FeatureFrameIsTaken | src/workstation/link_model.rs:215-227 | A feature frame is refused exactly when its id is past its total or it is older, and otherwise taken in the same way |
| Catalog.FramesAreGathered | src/workstation/link_model.rs:197-227 | The frames of one catalog, in any order and however often repeated, are all held |
| Catalog.CompleteCatalogsBuild | src/workstation/link_model.rs:197-278 | So once every instrument and feature of a catalog has come, in any order, it builds |
| Catalog.EverySlotHasItsFrame | src/workstation/link_model.rs:229-278 | As many distinct in-range ids as slots leaves no slot empty (pigeonhole) |
| Catalog.BuiltIsWhole | src/workstation/link_model.rs:229-272 | A catalog that builds has every feature slot named by exactly the frame with that id, and exactly the announced number of distinct instruments in id order, all from one stamp |
| Catalog.BuildsExactlyWhenWhole | src/workstation/link_model.rs:229-278 | It builds exactly when the announced numbers are held and no feature id lies past the slots |
| Catalog.BuiltAsReported | src/workstation/link_model.rs:229-272 | The mode and the spin interval of a built catalog are those the engine reported, a negative interval read as zero |
| Catalog.CatalogAssembly.AdoptStamp | src/workstation/link_model.rs:280-292 | A newer stamp starts over, an older one is refused, and the same one continues |
| Catalog.CatalogAssembly.TakeInstrument | src/workstation/link_model.rs:197-213 | A repeated id replaces, a new one adds |
| Catalog.CatalogAssembly.TakeFeature | src/workstation/link_model.rs:215-227 | Likewise for features |
| Catalog.CatalogAssembly.BuildCatalog | src/workstation/link_model.rs:229-272 | The built catalog is the one those lemmas are about |
| Session.EveryRunIsKept | src/workstation/link_session.rs:172-345 | Every run of datagrams and peer switches keeps the session's invariant |
| Session.BootsNeverStepBack | src/workstation/link_session.rs:172-191 | Between peer switches delivered frames have non-decreasing boot stamps, across all topics and senders |
| Session.OneCatalogPerStamp | src/workstation/link_session.rs:325-345 | Within one engine run a catalog stamp is published at most once, and never after a newer one |
| Session.CatalogsNeverShareASession | src/workstation/link_session.rs:325-345 | Each delivered catalog has a session number of its own |
| Session.DeliveredCatalogsAreWhole | src/workstation/link_session.rs:325-345 | Every catalog delivered was whole when it was |
| Session.RunsAreToldApart | src/workstation/link_model.rs:45-62 | A run is first when none was heard, stale exactly below the boot held, the same exactly on equal boot and sender, and otherwise a restart, which is adopted |
| Session.RefusedFramesAreDropped | src/workstation/link_session.rs:172-190 | A frame refused by either gate leaves its trace at the sequence gate and nowhere else |
| Session.PassedFramesAreFoldedIn | src/workstation/link_session.rs:172-323 | A frame that passes is folded into the session as it was, or into a new session when its engine restarted |
| Session.StreamsPassInOrder | src/workstation/link_session.rs:172-191 | After a frame that passed, another of the same engine and topic passes if and only if it is of a later boot, or of the same boot and a higher number |
| Session.MarketDataIsDelivered | src/workstation/link_session.rs:191-235 | Books, events and history are delivered as they came; what only an engine takes is not |
| Session.CatalogsGoOutWhenComplete | src/workstation/link_session.rs:325-345 | A catalog goes out exactly when a stamp not yet published is complete against the last report, and a new stamp over an old one starts a session number |
| Session.StepsFollowTheSession | src/workstation/link_session.rs:172-191 | A datagram that does not decode changes nothing; one that does moves the run as those lemmas say |
| Session.RemoteRunGate.ObserveRun | src/workstation/link_model.rs:45-62 | An older boot is refused, a newer one is a restart, and the first is adopted |
| Session.LinkSession.HandleDatagram | src/workstation/link_session.rs:172-191 | Decoding, the sequence gate and the boot gate each stop a frame, in that order, and a stopped frame changes nothing past its gate |
| Session.LinkSession.StartEngineRun | src/workstation/link_session.rs:318-323 | A restarted engine starts the catalog over under a new session number; what was heard of it stays |
| Session.LinkSession.HandleBody | src/workstation/link_session.rs:191-235 | Each kind of body is delivered or folded in as the session's step says |
| Session.LinkSession.AfterCatalogFrame | src/workstation/link_session.rs:325-332 | A new stamp starts a new session number before anything is published |
| Session.LinkSession.Publish | src/workstation/link_session.rs:334-345 | A catalog goes out only when it builds and its stamp is newer than the last |
| Session.LinkSession.AttachToNextPeer | src/workstation/link_session.rs:275-294 | A switch forgets the old engine entirely and releases the claim on it, but goes on counting subscriptions; a lone peer is not switched |
| Session.LinkSession.AssertRunState | src/workstation/link_session.rs:261-271 | A press becomes the claim and makes a subscription due; what is known of the engine stays |
| Session.LinkSession.SubscribeDue | src/workstation/link_session.rs:237-259 | A due subscription takes the next number and the claim of the moment, and is spent |
| Outbox.EveryRunIsKept | src/workstation/link_session.rs:237-294 | Any run of presses, moves and requests keeps the outbox's invariant |
| Outbox.NumbersAndEpochsRise | src/workstation/link_session.rs:237-294 | Subscriptions are numbered one after another across engines, and the epochs they claim never step back |
| Outbox.EpochNamesOnePress | src/workstation/link_model.rs:114-131 | Until epochs saturate, claims with one epoch are one claim, made on one engine |
| Outbox.ClaimsStayWithTheirEngine | src/workstation/link_session.rs:275-294 | So a claim made on one engine is never sent to another |
| Outbox.NothingIsClaimedAfterAMove | src/workstation/link_session.rs:275-294 | An engine just attached to hears no claim until the next press |
| Outbox.ToldAtOnce | src/workstation/link_session.rs:237-294 | A press or a move is told at the next chance: the new claim after a press, no claim and to the next engine after a move |
| Outbox.QuietUntilDue | src/workstation/link_session.rs:237-243 | Otherwise nothing goes out for two seconds after the last |
| Outbox.SaidAgainWhenDue | src/workstation/link_session.rs:237-259 | Two seconds after the last subscription it is sent again, with the same claim unless a press or a move came between, and the wait starts over; the first is sent when first asked for |
| Outbox.HighestHeardStands | src/shutdown.rs:116-122 | Of the claims a desired cell hears, in any order, the highest stands |
| Outbox.NewestPressHeardStands | src/workstation/link_model.rs:114-131 | An engine that hears any of a workstation's claims, in any order and however often, ends on the newest press it heard of |
| RunControl.RoundTripsExactly | src/shutdown.rs:142-154 | A packed assertion reads back exactly when its epoch is below 2^63 |
| RunControl.WordsRoundTrip | src/shutdown.rs:142-154 | Every word is the packing of the assertion it reads as |
| RunControl.RunStateCell.Store | src/shutdown.rs:110-112 | The cell reads back what was stored exactly when its epoch fits |
| RunControl.RunStateCell.AcceptIfNewer | src/shutdown.rs:116-122 | The highest epoch wins; a loser changes nothing and is told |
| RunControl.RunControlGate.PendingMarker | src/shutdown.rs:182-185 | Something is pending exactly while desired and acknowledged differ, and it is what is desired |
| RunControl.LinkControl.PushMarkerIfNeeded | src/link/actor/mod.rs:315-324 | The marker is pushed while it is pending, or dropped and counted when the lane is full |
| RunControl.LinkControl.OnSubscribe | src/link/actor/mod.rs:295-312 | Epoch zero claims nothing; any other claim shows the controller alive, is weighed by epoch and is followed by whatever marker is due |
| RunControl.LinkControl.CheckController | src/link/actor/mod.rs:356-384 | A controller once heard and then silent for the limit is given up once; where the run is configured so, an idle assertion exactly one epoch above the desired one follows, and otherwise the state is held |
| RunControl.HotRun.OnRunControl | src/hot/dispatch/gate.rs:108-117 | A marker counts only above the current epoch, and the state is acknowledged either way |
| RunControl.DesiredEpochsRise | src/shutdown.rs:116-122 | Over any run whose highest epoch is below 2^63, desired epochs strictly increase and the one in force is the highest |
| RunControl.AcknowledgedWasDesired | src/hot/dispatch/gate.rs:108-117 | Over such a run, what is acknowledged is what runs, was once desired, and is never ahead of it; applied epochs strictly rise, so a repeated marker re-runs nothing |
| RunControl.ControlConverges | src/shutdown.rs:156-186 | Once the desired state stops changing, one later attempt that finds room leaves nothing pending when the lane is drained, whatever else was dropped |
| RunControl.EpochsPastTheLimitAreLost | src/shutdown.rs:96-154 | A claim to run at epoch 2^63 leaves the engine told to idle at epoch zero |
| RunControl.LosingTheControllerCanPassTheLimit | src/link/actor/mod.rs:373-384 | With every claim below 2^63, losing the controller can still do the same |
| RunControl.ClaimReadsBackExactly | src/shutdown.rs:110-122 | A winning claim is what the desired cell then reads exactly when its epoch is below 2^63 |
| RunControl.ReadsBackExactlyBelowTheLimit | src/shutdown.rs:110-154 | The desired cell reads what was last accepted at every moment of a run exactly when the highest claim heard, plus one for each controller lost after it, is below 2^63 |
| RunControl.EpochsFitExactly | src/shutdown.rs:110-154 | That same bound is exactly when every assertion the run makes, its own included, fits the cell |
| RunControl.ClaimsBoundTheEpochs | src/link/actor/mod.rs:356-384 | Claims up to some epoch and a count of lost controllers bound the highest epoch by their sum |
| RunControl.LatePushIsEarlyPush | src/hot/dispatch/gate.rs:108-117 | Pushing a marker before or after an older one is dispatched leads to the same state |
| RunControl.HigherClaimsBecomeDesired | src/link/actor/mod.rs:295-312 | A claim that fits becomes what is desired exactly when its epoch is above the one held; epoch zero changes nothing |
| RunControl.LostControllersPark | src/link/actor/mod.rs:373-384 | A lost controller leaves the engine wanting to idle one epoch above what was desired |
| RunControl.MarkersGoOutWhileDue | src/link/actor/mod.rs:315-324 | A marker goes out behind the others exactly while what is desired is not acknowledged and there is room |
| RunControl.MarkersAreTakenInOrder | src/hot/dispatch/gate.rs:108-117 | The oldest marker is taken; it runs exactly when its epoch is above the current one, and what runs is acknowledged |
| RunControl.Controller.Assert | src/workstation/link_model.rs:114-131 | A new claim has a higher epoch than every earlier one, up to saturation |
| RunControl.Controller.Release | src/workstation/link_model.rs:119-121 | A released controller claims nothing, and keeps its count of claims |
| RunControl.Controller.Verdict | src/workstation/link_model.rs:137-154 | Confirmed exactly when the engine reports this claim; lost exactly when it reports a higher one |
| Tap.SimTapGate.BeginSweep | src/hot/spawn.rs:40-42 | The phase never moves backwards |
| Tap.SimTapGate.Disable | src/hot/spawn.rs:46-53 | The tap is closed whatever came before; the assertion fires exactly when no sweep was declared |
| Tap.FatalSignal.Trip | src/shutdown.rs:28-36 | The first reason is the one kept |
| Tap.QueueProducer.Push | src/hot/spawn.rs:101-105 | A full queue trips the fatal signal and takes nothing |
| Tap.QueueProducer.PushTapped | src/hot/spawn.rs:108-135 | Undisturbed, the message enters both rings or neither, and a full ring is named in the fatal reason |
| Tap.QueueProducer.PushTapWatermark | src/hot/spawn.rs:137-150 | The watermark is the running maximum of every stamp seen |
| Tap.EveryRunIsKept | src/hot/spawn.rs:108-150 | Every interleaving of the producer's single steps, both consumers and the gate keeps the invariant |
| Tap.NeverFails | src/hot/spawn.rs:125-134 | Neither ring fills between its check and its push: the two assertions never fire |
| Tap.BothRingsAgree | src/hot/spawn.rs:107-135 | Tapped messages on the hot queue are a prefix of those on the tap, at most one behind, and the same between calls |
| Tap.WatermarksBound | src/hot/spawn.rs:137-150 | A watermark is at least every stamp tapped before it |
| Tap.ClosingIsFinal | src/hot/spawn.rs:36-53 | After the tap closes, only a call already past the gate adds to it |
| Tap.PhaseIsTheFurthest | src/hot/spawn.rs:36-53 | The phase is the furthest step the gate's owner has taken |
| Tap.StepsAreTheCall | src/hot/spawn.rs:108-135 | Left alone, the single steps add up to the call |
| Tap.StepsAreThePlainCall | src/hot/spawn.rs:101-114 | So do those of a plain push |
| Tap.StepsAreTheWatermark | src/hot/spawn.rs:137-149 | And those of a watermark |
| Tap.WatermarkCallKeepsOrder | src/hot/spawn.rs:137-149 | A watermark call keeps the tap in order, and what it appends is at least the stamp and every stamp tapped before; a closed tap takes nothing and a full one is fatal |
| Tap.PushEntersOrTrips | src/hot/spawn.rs:101-105 | A message enters behind the others while there is room, and otherwise the first fault is named |
| Tap.TappedPushEntersBothOrNeither | src/hot/spawn.rs:108-135 | A tapped message enters both queues exactly when both have room; otherwise neither moves and the full one is named, the hot queue first |
| Tap.OnlyFullRingsTrip | src/hot/spawn.rs:151-173 | A step names a ring only while it is full, and the first name stays |
| Tap.NothingIsLostQuietly | src/hot/spawn.rs:101-135 | Over any run, while no fault is named, the hot queue has taken every message called for, in order |
| Tap.PopsTakeTheOldest | src/hot/spawn.rs:108-135 | A consumer takes the oldest item and only that |
| Kline.KlineSequencer.TakeLive | src/adapters/binance/kline.rs:59-80 | Repeats are dropped, a hole is reported and nothing sent, anything else goes out |
| Kline.KlineSequencer.TakeBackfill | src/adapters/binance/kline.rs:47-57 | Final and forming rows are passed over, and the batch ends at the first hole |
| Kline.KlineSequencer.FindGap | src/adapters/binance/kline.rs:89-92 | A hole starts at the next expected open; a monthly interval has none |
| Kline.KlineSequencer.EmitClamped | src/adapters/binance/kline.rs:100-106 | A sent stamp is raised to the newest sent before it |
| Kline.SeriesHasNoHoles | src/adapters/binance/kline.rs:47-106 | Over any interleaving final opens strictly rise by at most one interval, stamps never step back, and nothing is sent for an open already final |
| Kline.SeriesIsTheGrid | src/adapters/binance/kline.rs:38-98 | When the final candles received, live or backfilled, open on one grid, the k-th final candle sent opens exactly k intervals after the first |
| Kline.LiveCandlesGoOut | src/adapters/binance/kline.rs:59-80 | A live candle is a duplicate exactly up to the last final open, a gap exactly when final and past the next, and goes out otherwise |
| Kline.FormingRowsArePassedOver | src/adapters/binance/kline.rs:47-57 | Backfilled rows still forming are as if they had not come |
| Kline.BackfillEndsAtAHole | src/adapters/binance/kline.rs:47-57 | A final row past the next expected open ends the batch before it |
| Kline.GapLeavesTheAnchor | src/adapters/binance/kline.rs:59-80 | A reported gap sends nothing, leaves the anchor, and names the first missing open |
| Kline.GapHeals | src/adapters/binance/kline.rs:47-80 | Backfilling the missing candles, with any already-final overlap, lets the reporting candle through with each missing open sent once before it |
| Decimal.ParseFixedMantissa | src/ids.rs:198-235 | The parser is the function the next three rows are about, error order included |
| Decimal.AccumulateDigits | src/ids.rs:218-229 | Digits accumulate up to the first character that is none or no longer fits |
| Decimal.ParsesExactly | src/ids.rs:198-235 | Parsing gives a mantissa exactly when the text is a decimal of at most eight places standing for it and it fits |
| Decimal.LengthsAreInBytes | src/ids.rs:198-235 | The length held against the eight places is that of the fraction's UTF-8 bytes, not of its characters |
| Decimal.RefusalsNameTheFault | src/ids.rs:198-235 | Each refusal is for the fault it names, the first offending character included |
| Decimal.SnapIsNearestPassive | src/ids.rs:75-84 | The snapped price is on the grid, the nearest on the passive side, and the price itself exactly when that is on the grid |
| Format.Label.DecimalDigits | src/workstation/format.rs:433-445 | The scratch array ends with the number's digits, however wide the word |
| Format.Label.PushPadded | src/workstation/format.rs:474-483 | The digits, padded with zeros to the width |
| Format.Label.WriteFixedPoint | src/workstation/format.rs:167-180 | The label is the fixed-point text the lemmas below read back |
| Format.FixedPointIsCut | src/workstation/format.rs:167-180 | The digits on both sides of the dot are the value cut at its last place, never rounded |
| Format.DecimalsForIncrement | src/workstation/format.rs:409-420 | The loop counts the places the next row is about |
| Format.DecimalsAreFewest | src/workstation/format.rs:409-420 | The fewest places that show a positive mantissa whole; none for any other |
| Format.PrintedPriceParses | src/workstation/format.rs:112-114 | Parsing a printed price gives it back less exactly what its label had no place for |
| Format.RoundTripsExactly | src/workstation/format.rs:112-114 | It comes back whole exactly when it has no digit past the last place |
| Format.TickPricesRoundTrip | src/workstation/format.rs:104-114 | Every non-negative multiple of a positive tick survives printing at the tick's own precision |
| Format.NegativePricesDoNotParse | src/workstation/format.rs:167-180 | A negative price prints a sign, which the parser refuses |
| Format.ExactMidDecimals | src/workstation/format.rs:148-158 | The search is the one the next row is about |
| Format.MidIsExactAndFewest | src/workstation/format.rs:145-158 | It stops at or before nine places, at an exact rendering, and the fewest not below the tick's own |
| Format.MidLabelIsTheMid | src/workstation/format.rs:120-124 | So a mid's label is the mid: nothing is cut from it |
| Axis.ChooseTicks | src/workstation/format.rs:380-389 | The search down the ladder is the one the last two rows of this file are about |
| Axis.TickCursor.Next | src/workstation/format.rs:358-367 | The iterator yields the ticks in turn and then nothing |
| Axis.TicksAreTheMultiples | src/workstation/format.rs:396-407 | The ticks of a step are exactly its multiples between the bounds |
| Axis.YieldedAreTheTicks | src/workstation/format.rs:358-407 | The iterator yields exactly them: its saturating step never saturates before the last |
| Axis.LadderRises | src/workstation/format.rs:391-394 | Every rung is coarser than the one before |
| Axis.AxisIsTheFinestThatFits | src/workstation/format.rs:380-407 | The axis labels every multiple of its step in range and nothing else, no more than asked for or five if fewer were asked for; every finer rung has too many multiples in range or one at an edge that 64 bits cannot hold; asked for none, it labels none |
| Axis.MultiplesAreCounted | src/workstation/format.rs:396-407 | The count is of exactly the multiples in range |
| Axis.FinestIsDrawnExactly | src/workstation/format.rs:380-407 | The finest rung free of crowding is drawn exactly when its multiples at the edges fit 64 bits; with no such rung nothing is drawn |
| Axis.NothingIsSkippedAwayFromTheEnds | src/workstation/format.rs:396-407 | A range that starts a coarsest step from both ends of 64 bits skips no rung |
| Axis.TheEndsCanGoUnlabelled | src/workstation/format.rs:396-407 | A range at the low end on which step five has two multiples and nothing is drawn |
| Dom.BucketIsTheShare | src/workstation/dom_view.rs:49-62 | A bucket in basis points is the widest whole number of ticks within that share of the mid, but at least one tick and at most the widest word |
| Dom.TicksAreMultiples | src/workstation/dom_view.rs:183-189 | A price has a tick exactly when it is that many of them |
| Dom.NewLadderIsSound | src/workstation/dom_view.rs:371-378 | A new ladder whose first and last buckets start within 64 bits meets what the rows below ask of it: its anchor is a bucket edge and no edge saturates |
| Dom.AnchorsHugTheMid | src/workstation/dom_view.rs:203-210 | The anchors are the first tick above the mid and the last below it |
| Dom.RowOfInvertsEdge | src/workstation/dom_view.rs:380-410 | Away from saturation a tick is in a row exactly when the row's edge is at or below it by less than a bucket |
| Dom.EveryTickHasOnePlace | src/workstation/dom_view.rs:389-420 | Away from saturation every tick is in one row, or below all, or above all, on either side |
| Dom.OnlyTheFarEndIsHidden | src/workstation/dom_view.rs:203-260 | With an uncrossed top no ask is below the ask rows and no bid above the bid rows |
| Dom.PlacePublic | src/workstation/dom_view.rs:426-436 | The loop over levels is the placement the next two rows are about |
| Dom.RowsShowTheirBuckets | src/workstation/dom_view.rs:426-440 | Each row shows exactly the depth of its bucket, or the largest quantity there is where the depth is more, and an empty bucket nothing |
| Dom.BucketsSplitTheWindow | src/workstation/dom_view.rs:426-436 | The depths of the rows' buckets add up to the window's |
| Dom.RowsConserveTheWindow | src/workstation/dom_view.rs:426-440 | The rows together show every on-grid level of the window and nothing else exactly when no bucket holds more than a row can show, and less otherwise |

## Left out

- I/O: sockets, tasks, timers, HTTP and WebSocket clients, fsync, rename, Parquet and JSON bytes. A file is a sequence of rows or one document, a write one step that takes or fails; persist writes always take.
- `src/adapters/edge.rs`: its loop leans on drivers outside this model.
- Report-only counters, log lines and warnings, except those a contract above mentions.
- `f64` sums, averages and medians of `src/hot/series.rs`; `f64` on the wire is 64 opaque bits.
- A latency count past `u32` is written as the largest count; the model's counts fit.
- FNV name hashing in `src/link/envelope.rs`; hashes are given numbers.
- Instrument ids inside market messages: each model follows one instrument's stream.
- `u64` counters and sequence numbers are unbounded; only run-control epochs and mantissas carry their width.
- Rust's binary search and sort appear by their contracts, not their algorithms.
- Weak memory ordering: every atomic is a sequentially consistent variable with its stated writers.
- The session's silence warning and report timer, and the desired-quote and order placement of the ladder, whose rules repeat the public placement.
- The envelope identity and topic list of a subscription, which never change; its number and claim are modelled.
- The half-tick distance an off-screen placement carries; only the direction is modelled.
- Exposure.QuietFileIsNewest: assumes the hot side numbers its snapshots upwards from one, as the engine does.
- Exposure.ExposureSink.Flush: the writer's pops between attempts are given in advance instead of running beside it.
- Dom.RowsShowTheirBuckets: quantities are non-negative, as a book's are.
- RunControl.AcknowledgedWasDesired: for runs whose highest epoch, counted as in RunControl.HighestEpoch, is below 2^63; past it the desired cell itself is wrong, exactly as RunControl.ReadsBackExactlyBelowTheLimit says.
- RunControl.LinkControl.OnSubscribe: the refresh of the subscriber table (Gate.SubscriberTable.Refresh) and the history backfill that come before it are outside it.
- Ledger.BasisTracksAverageCost: fills of non-negative size and value whose zero size carries zero value, and runs in which no value leaves `i64`.
- Decimal.ParseFixedMantissa: an error carries its kind and character, not a copy of the text.
- Ledger.BookedFillsArePlain: for venue totals in which more base is never worth less quote; the ledger asserts that of each fill and the fold does not check it.
