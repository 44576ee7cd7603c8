/** The whole feed: a venue's diffs and snapshots go into the sequencer, what it emits goes into the hot
    book, and the hot book is the venue's book. */
module Replication {
  import opened Common
  import opened Book
  import opened Chunk
  import D = Depth

  // ---------------------------------------------------------------- the venue's side of the contract

  datatype VenueBook = VenueBook(bids: map<int, int>, asks: map<int, int>)

  /** The venue's own book after every update id. */
  type Venue = int -> VenueBook

  function Overlaid(book: VenueBook, bids: seq<Level>, asks: seq<Level>): VenueBook {
    VenueBook(ApplyAllToReference(book.bids, bids), ApplyAllToReference(book.asks, asks))
  }

  /** The states a diff may be laid over: any id its range covers, and the id it declares it follows. */
  predicate Covers(diff: D.DepthDiff, id: int) {
    id == diff.firstId - 1 || diff.firstId <= id <= diff.finalId
    || (diff.prevFinalId.Some? && diff.prevFinalId.value == id)
  }

  /** Levels are absolute: laid over any state it covers, a diff gives the state at its final id. */
  ghost predicate Absolute(venue: Venue, diff: D.DepthDiff) {
    forall id: int {:trigger venue(id)} ::
      Covers(diff, id) ==> Overlaid(venue(id), diff.bids, diff.asks) == venue(diff.finalId)
  }

  ghost predicate States(venue: Venue, snapshot: D.DepthSnapshot) {
    Overlaid(VenueBook(map[], map[]), snapshot.bids, snapshot.asks) == venue(snapshot.lastId)
  }

  // ---------------------------------------------------------------- runs

  datatype Event = Diff(diff: D.DepthDiff) | Snap(snapshot: D.DepthSnapshot) | Floor(ts: I64)

  ghost predicate Conforms(venue: Venue, event: Event) {
    match event
    case Diff(diff) => Absolute(venue, diff)
    case Snap(snapshot) => States(venue, snapshot)
    case Floor(_) => true
  }

  datatype Config = Config(rule: D.ChainRule, bufferCapacity: nat, bookCapacity: nat)

  /** The sequencer, the book its emissions have been folded into, and everything emitted so far. */
  datatype Replica = Replica(sequencer: D.SequencerView, book: BookView, log: seq<D.Emission>)

  const NEW_REPLICA := Replica(D.NEW_SEQUENCER, EMPTY_BOOK, [])

  function FoldMessage(capacity: nat, b: BookView, m: D.Message): BookView {
    match m
    case BookMessage(chunk) => ApplyChunk(capacity, b, chunk)
    case ResetMessage(_, _) => EMPTY_BOOK
  }

  function FoldEmissions(capacity: nat, b: BookView, out: seq<D.Emission>): BookView
    decreases |out|
  {
    if out == [] then b else FoldEmissions(capacity, FoldMessage(capacity, b, out[0].message), out[1..])
  }

  function React(config: Config, s: D.SequencerView, event: Event): (D.SequencerView, seq<D.Emission>) {
    match event
    case Diff(diff) =>
      var r := D.OnDiff(config.rule, config.bufferCapacity, s, diff);
      (r.0, r.2)
    case Snap(snapshot) =>
      var r := D.OnSnapshot(config.rule, s, snapshot);
      (r.0, r.2)
    case Floor(ts) => (s.(lastEmittedTs := Max(s.lastEmittedTs, ts)), [])
  }

  function Step(config: Config, r: Replica, event: Event): Replica {
    var (s, out) := React(config, r.sequencer, event);
    Replica(s, FoldEmissions(config.bookCapacity, r.book, out), r.log + out)
  }

  function Run(config: Config, events: seq<Event>): Replica
    decreases |events|
  {
    if events == [] then NEW_REPLICA
    else Step(config, Run(config, events[..|events| - 1]), events[|events| - 1])
  }

  // ---------------------------------------------------------------- what every step keeps

  function Unbounded(b: BookView): VenueBook {
    VenueBook(b.bids.reference, b.asks.reference)
  }

  ghost predicate Replicating(venue: Venue, config: Config, r: Replica) {
    && FaithfulBook(config.bookCapacity, r.book)
    && (r.sequencer.state.Live? <==> r.book.state.Valid?)
    && (r.sequencer.state.Live? ==>
          r.sequencer.buffer == [] && Unbounded(r.book) == venue(r.sequencer.bookUpdateId))
    && (!r.sequencer.state.Live? ==> r.book == EMPTY_BOOK)
    && (forall diff :: diff in r.sequencer.buffer ==> Absolute(venue, diff))
  }

  lemma {:induction false} FoldTagged(capacity: nat, b: BookView, chunks: seq<BookChunk>, meta: D.VenueMeta)
    ensures FoldEmissions(capacity, b, D.Tagged(chunks, meta)) == ApplyChunks(capacity, b, chunks)
    decreases |chunks|
  {
    if chunks != [] {
      assert D.Tagged(chunks, meta)[1..] == D.Tagged(chunks[1..], meta);
      FoldTagged(capacity, ApplyChunk(capacity, b, chunks[0]), chunks[1..], meta);
    }
  }

  lemma {:induction false} FoldConcat(capacity: nat, b: BookView, left: seq<D.Emission>, right: seq<D.Emission>)
    ensures FoldEmissions(capacity, b, left + right)
         == FoldEmissions(capacity, FoldEmissions(capacity, b, left), right)
    decreases |left|
  {
    if left == [] {
      assert left + right == right;
    } else {
      assert (left + right)[1..] == left[1..] + right;
      FoldConcat(capacity, FoldMessage(capacity, b, left[0].message), left[1..], right);
    }
  }

  lemma LevelsOverlay(capacity: nat, b: BookView, bids: seq<Level>, asks: seq<Level>)
    requires capacity > 0 && FaithfulBook(capacity, b)
    ensures var b' := WithLevels(capacity, b, bids, asks, BookState.Valid);
            FaithfulBook(capacity, b') && Unbounded(b') == Overlaid(Unbounded(b), bids, asks)
  {
    RunKeepsFaithful(Descending, capacity, b.bids, bids);
    RunKeepsFaithful(Ascending, capacity, b.asks, asks);
  }

  /** One emitted delta moves a valid book from a state it covers to the state at its final id. */
  lemma DeltaAdvances(venue: Venue, capacity: nat, s: D.SequencerView, b: BookView, diff: D.DepthDiff)
    requires capacity > 0 && FaithfulBook(capacity, b) && b.state.Valid?
    requires Absolute(venue, diff) && Covers(diff, s.bookUpdateId)
    requires Unbounded(b) == venue(s.bookUpdateId)
    ensures var (s', out) := D.EmitDelta(s, diff);
            var b' := FoldEmissions(capacity, b, out);
            && FaithfulBook(capacity, b') && b'.state.Valid?
            && s'.bookUpdateId == diff.finalId && Unbounded(b') == venue(diff.finalId)
  {
    var (s', out) := D.EmitDelta(s, diff);
    var plan := D.DeltaPlan(diff, s'.lastEmittedTs);
    FoldTagged(capacity, b, BookChunks(plan, diff.bids, diff.asks), D.DepthDelta(diff.exchangeTs));
    DeltaFoldsWhole(capacity, b, plan, diff.bids, diff.asks);
    LevelsOverlay(capacity, b, diff.bids, diff.asks);
  }

  /** A buffered run of diffs that chains covers, one by one, each state the previous one reached. */
  lemma {:induction false} DeltasAdvance(venue: Venue, rule: D.ChainRule, capacity: nat,
                                         s: D.SequencerView, b: BookView,
                                         diffs: seq<D.DepthDiff>)
    requires capacity > 0 && FaithfulBook(capacity, b) && b.state.Valid?
    requires Unbounded(b) == venue(s.bookUpdateId)
    requires forall diff :: diff in diffs ==> Absolute(venue, diff) && D.OutlivesSnapshot(rule, s.bookUpdateId, diff)
    requires D.ChainedFrom(rule, s.bookUpdateId, diffs)
    ensures var (s', out) := D.EmitDeltas(s, diffs);
            var b' := FoldEmissions(capacity, b, out);
            && FaithfulBook(capacity, b') && b'.state.Valid? && Unbounded(b') == venue(s'.bookUpdateId)
            && s'.state == s.state && s'.buffer == s.buffer
            && (diffs != [] ==> s'.bookUpdateId == diffs[|diffs| - 1].finalId)
            && (diffs == [] ==> s' == s)
    decreases |diffs|
  {
    if diffs != [] {
      var front, last := diffs[..|diffs| - 1], diffs[|diffs| - 1];
      DeltasAdvance(venue, rule, capacity, s, b, front);
      var (before, emitted) := D.EmitDeltas(s, front);
      var b1 := FoldEmissions(capacity, b, emitted);
      if front == [] {
        assert D.SpansSeam(rule, s.bookUpdateId, last) && D.OutlivesSnapshot(rule, s.bookUpdateId, last);
      } else {
        assert D.ChainsOnto(rule, diffs[|diffs| - 2].finalId, diffs[|diffs| - 1]);
      }
      DeltaAdvances(venue, capacity, before, b1, last);
      FoldConcat(capacity, b, emitted, D.EmitDelta(before, last).1);
    }
  }

  lemma DiffKeeps(venue: Venue, config: Config, r: Replica, diff: D.DepthDiff)
    requires config.bookCapacity > 0 && Replicating(venue, config, r) && Absolute(venue, diff)
    ensures Replicating(venue, config, Step(config, r, Diff(diff)))
  {
    var (s, outcome, out) := D.OnDiff(config.rule, config.bufferCapacity, r.sequencer, diff);
    if outcome.Applied? {
      DeltaAdvances(venue, config.bookCapacity, r.sequencer, r.book, diff);
    } else if outcome.Resync? {
      assert out == D.BeginResync(r.sequencer, diff).1;
      assert FoldEmissions(config.bookCapacity, r.book, out) == EMPTY_BOOK by {
        assert |out| == 1 && out[0].message.ResetMessage? && out[1..] == [];
      }
    }
  }

  lemma SnapshotKeeps(venue: Venue, config: Config, r: Replica, snapshot: D.DepthSnapshot)
    requires config.bookCapacity > 0 && Replicating(venue, config, r) && States(venue, snapshot)
    ensures Replicating(venue, config, Step(config, r, Snap(snapshot)))
  {
    var capacity, s := config.bookCapacity, r.sequencer;
    var (s', outcome, out) := D.OnSnapshot(config.rule, s, snapshot);
    var kept := D.Retained(config.rule, snapshot.lastId, s.buffer);
    FilterKeeps((diff: D.DepthDiff) => D.OutlivesSnapshot(config.rule, snapshot.lastId, diff), s.buffer);
    if outcome.Applied? {
      var stamp := Max(s.lastEmittedTs, snapshot.receivedTs);
      var plan := ChunkPlan(Snapshot, snapshot.lastId, None, stamp);
      var head := D.Tagged(BookChunks(plan, snapshot.bids, snapshot.asks), D.NoMeta);
      FoldTagged(capacity, r.book, BookChunks(plan, snapshot.bids, snapshot.asks), D.NoMeta);
      SnapshotFoldsWhole(capacity, r.book, plan, snapshot.bids, snapshot.asks);
      LevelsOverlay(capacity, EMPTY_BOOK, snapshot.bids, snapshot.asks);
      var b := FoldEmissions(capacity, r.book, head);
      var start := s.(buffer := [], lastEmittedTs := stamp, bookUpdateId := snapshot.lastId);
      DeltasAdvance(venue, config.rule, capacity, start, b, kept);
      FoldConcat(capacity, r.book, head, D.EmitDeltas(start, kept).1);
    }
  }

  // ---------------------------------------------------------------- what one diff does to a live book

  /** The diff right after an update id: the venue's own numbering, in unbounded arithmetic. */
  predicate Follows(rule: D.ChainRule, id: int, diff: D.DepthDiff) {
    match rule
    case Spot => diff.firstId == id + 1
    case Perp => diff.prevFinalId.Some? && diff.prevFinalId.value == id
  }

  /** A spot diff sent again. A book at the last id there is takes nothing on trust. */
  predicate AlreadyHeld(rule: D.ChainRule, id: int, diff: D.DepthDiff) {
    rule.Spot? && diff.finalId <= id < U64_MAX
  }

  /** A stamp that would undercut one already sent is raised to it. */
  function Later(floor: int, received: int): int {
    if received < floor then floor else received
  }

  predicate IsDeltaOf(e: D.Emission, diff: D.DepthDiff, stamp: int) {
    && e.message.BookMessage? && e.message.chunk.kind.Delta?
    && e.message.chunk.updateId == diff.finalId && e.message.chunk.exchangeTs == Some(diff.exchangeTs)
    && e.message.chunk.receivedTs == e.message.chunk.queuedTs == stamp
    && e.meta == D.DepthDelta(diff.exchangeTs)
  }

  /** A live sequencer given the diff that follows stays live and ends where the diff does, with all of its levels
      applied, and says what it sends is that diff's. */
  lemma FollowingDiffIsApplied(config: Config, r: Replica, diff: D.DepthDiff) returns (out: seq<D.Emission>)
    requires r.sequencer.state.Live? && r.book.state.Valid?
    requires Follows(config.rule, r.sequencer.bookUpdateId, diff)
    ensures var r' := Step(config, r, Diff(diff));
            var stamp := Later(r.sequencer.lastEmittedTs, diff.receivedTs);
            && r'.log == r.log + out && (forall i :: 0 <= i < |out| ==> IsDeltaOf(out[i], diff, stamp))
            && r'.sequencer.lastEmittedTs == stamp
            && r'.sequencer.state.Live? && r'.sequencer.bookUpdateId == diff.finalId
            && r'.sequencer.buffer == r.sequencer.buffer
            && r'.book == WithLevels(config.bookCapacity, r.book, diff.bids, diff.asks, BookState.Valid)
  {
    var (s', outcome, emitted) := D.OnDiff(config.rule, config.bufferCapacity, r.sequencer, diff);
    assert (s', emitted) == D.EmitDelta(r.sequencer, diff);
    out := emitted;
    var plan := D.DeltaPlan(diff, s'.lastEmittedTs);
    FoldTagged(config.bookCapacity, r.book, BookChunks(plan, diff.bids, diff.asks), D.DepthDelta(diff.exchangeTs));
    DeltaFoldsWhole(config.bookCapacity, r.book, plan, diff.bids, diff.asks);
    ChunksFollowThePlan(plan, diff.bids, diff.asks);
    hide BookChunks, WithLevels, FoldEmissions, ApplyChunks;
  }

  /** Given a diff it already holds, it does nothing. */
  lemma HeldDiffIsIgnored(config: Config, r: Replica, diff: D.DepthDiff)
    requires r.sequencer.state.Live? && !Follows(config.rule, r.sequencer.bookUpdateId, diff)
    requires AlreadyHeld(config.rule, r.sequencer.bookUpdateId, diff)
    ensures Step(config, r, Diff(diff)) == r
  {
    assert r.log + [] == r.log;
  }

  /** Given any other, it resets the book, once, and starts over from that diff. */
  lemma BrokenChainResets(config: Config, r: Replica, diff: D.DepthDiff) returns (reset: D.Emission)
    requires r.sequencer.state.Live? && !Follows(config.rule, r.sequencer.bookUpdateId, diff)
    requires !AlreadyHeld(config.rule, r.sequencer.bookUpdateId, diff)
    ensures var r' := Step(config, r, Diff(diff));
            var stamp := Later(r.sequencer.lastEmittedTs, diff.receivedTs);
            && r'.log == r.log + [reset] && r'.sequencer.lastEmittedTs == stamp
            && reset == D.Emission(D.ResetMessage(stamp, stamp), D.DepthReset(diff.exchangeTs))
            && r'.book == EMPTY_BOOK
            && r'.sequencer.state.AwaitingSnapshot? && r'.sequencer.buffer == [diff]
            && !r'.sequencer.overflowWarned
  {
    var out := D.OnDiff(config.rule, config.bufferCapacity, r.sequencer, diff).2;
    assert out == D.BeginResync(r.sequencer, diff).1 && out[1..] == [];
    assert FoldEmissions(config.bookCapacity, EMPTY_BOOK, out[1..]) == EMPTY_BOOK;
    reset := out[0];
  }

  /** So nothing received is ever silently ahead of a live book. */
  lemma NothingIsSilentlyAhead(config: Config, r: Replica, diff: D.DepthDiff)
    requires r.sequencer.state.Live? && r.book.state.Valid?
    ensures var r' := Step(config, r, Diff(diff));
            && (r'.sequencer.state.Live? ==> r'.sequencer.bookUpdateId >= diff.finalId)
            && (!r'.sequencer.state.Live? ==>
                  && |r'.log| == |r.log| + 1 && r'.log[|r.log|].message.ResetMessage?
                  && r'.sequencer.buffer == [diff])
  {
    hide Step, Follows;
    if Follows(config.rule, r.sequencer.bookUpdateId, diff) {
      var _ := FollowingDiffIsApplied(config, r, diff);
    } else if AlreadyHeld(config.rule, r.sequencer.bookUpdateId, diff) {
      HeldDiffIsIgnored(config, r, diff);
    } else {
      var _ := BrokenChainResets(config, r, diff);
    }
  }

  /** Diffs that follow one another, the first of them right after `id`. */
  predicate InSequence(rule: D.ChainRule, id: int, diffs: seq<D.DepthDiff>) {
    && (diffs != [] ==> Follows(rule, id, diffs[0]))
    && (forall i :: 1 <= i < |diffs| ==> Follows(rule, diffs[i - 1].finalId, diffs[i]))
  }

  function DiffEvents(diffs: seq<D.DepthDiff>): seq<Event> {
    seq(|diffs|, i requires 0 <= i < |diffs| => Diff(diffs[i]))
  }

  lemma RunSnoc(config: Config, events: seq<Event>, event: Event)
    ensures Run(config, events + [event]) == Step(config, Run(config, events), event)
  {
    assert (events + [event])[..|events|] == events;
  }

  /** Progress: an unbroken feed keeps a live book live and carries it to its last diff. */
  lemma {:induction false} UnbrokenFeedsAdvance(venue: Venue, config: Config, events: seq<Event>,
                                                diffs: seq<D.DepthDiff>)
    requires config.bookCapacity > 0 && forall event :: event in events + DiffEvents(diffs) ==> Conforms(venue, event)
    requires Run(config, events).sequencer.state.Live?
    requires InSequence(config.rule, Run(config, events).sequencer.bookUpdateId, diffs)
    ensures var r := Run(config, events + DiffEvents(diffs));
            && r.sequencer.state.Live? && r.book.state.Valid?
            && r.sequencer.bookUpdateId
               == (if diffs == [] then Run(config, events).sequencer.bookUpdateId else diffs[|diffs| - 1].finalId)
            && Unbounded(r.book) == venue(r.sequencer.bookUpdateId)
    decreases |diffs|
  {
    hide Run, Step, Follows, Absolute, States;
    EveryRunReplicates(venue, config, events + DiffEvents(diffs));
    if diffs == [] {
      assert events + DiffEvents(diffs) == events;
    } else {
      var front, last := diffs[..|diffs| - 1], diffs[|diffs| - 1];
      assert DiffEvents(diffs) == DiffEvents(front) + [Diff(last)];
      assert events + DiffEvents(diffs) == (events + DiffEvents(front)) + [Diff(last)];
      UnbrokenFeedsAdvance(venue, config, events, front);
      RunSnoc(config, events + DiffEvents(front), Diff(last));
      var _ := FollowingDiffIsApplied(config, Run(config, events + DiffEvents(front)), last);
    }
  }

  // ---------------------------------------------------------------- and to one awaiting its snapshot

  /** While a snapshot is awaited every diff is kept, in order, as long as there is room; one too many starts the
      buffer over from itself. Nothing reaches the book. */
  lemma AwaitingDiffIsKept(config: Config, r: Replica, diff: D.DepthDiff)
    requires r.sequencer.state.AwaitingSnapshot?
    ensures var r' := Step(config, r, Diff(diff));
            && r'.sequencer.state.AwaitingSnapshot? && r'.book == r.book && r'.log == r.log
            && r'.sequencer.lastEmittedTs == r.sequencer.lastEmittedTs
            && (|r.sequencer.buffer| < config.bufferCapacity ==> r'.sequencer.buffer == r.sequencer.buffer + [diff])
            && (|r.sequencer.buffer| >= config.bufferCapacity ==> r'.sequencer.buffer == [diff])
            && (r'.sequencer.overflowWarned <==>
                r.sequencer.overflowWarned || |r.sequencer.buffer| >= config.bufferCapacity)
  {
    assert r.log + [] == r.log;
  }

  /** The diffs a snapshot does not already contain. */
  function Newer(rule: D.ChainRule, lastId: int, diffs: seq<D.DepthDiff>): seq<D.DepthDiff> {
    Filter((diff: D.DepthDiff) => if rule.Spot? then diff.finalId > lastId else diff.finalId >= lastId, diffs)
  }

  /** They go on from the snapshot: the first reaches across its id, and the rest follow one another. */
  predicate GoesOnFrom(rule: D.ChainRule, lastId: int, diffs: seq<D.DepthDiff>) {
    && (rule.Spot? ==> lastId < U64_MAX)
    && (diffs != [] ==> if rule.Spot? then diffs[0].firstId <= lastId + 1 else diffs[0].firstId <= lastId)
    && (forall i :: 1 <= i < |diffs| ==> Follows(rule, diffs[i - 1].finalId, diffs[i]))
  }

  function AllBids(diffs: seq<D.DepthDiff>): seq<Level> {
    if diffs == [] then [] else AllBids(diffs[..|diffs| - 1]) + diffs[|diffs| - 1].bids
  }

  function AllAsks(diffs: seq<D.DepthDiff>): seq<Level> {
    if diffs == [] then [] else AllAsks(diffs[..|diffs| - 1]) + diffs[|diffs| - 1].asks
  }

  lemma {:induction false} DeltasFoldWhole(capacity: nat, s: D.SequencerView, b: BookView, diffs: seq<D.DepthDiff>)
    requires b.state.Valid?
    ensures var (s', out) := D.EmitDeltas(s, diffs);
            && FoldEmissions(capacity, b, out)
               == WithLevels(capacity, b, AllBids(diffs), AllAsks(diffs), BookState.Valid)
            && s'.bookUpdateId == (if diffs == [] then s.bookUpdateId else diffs[|diffs| - 1].finalId)
            && s' == s.(bookUpdateId := s'.bookUpdateId, lastEmittedTs := s'.lastEmittedTs)
    decreases |diffs|
  {
    if diffs != [] {
      var front, last := diffs[..|diffs| - 1], diffs[|diffs| - 1];
      DeltasFoldWhole(capacity, s, b, front);
      var (before, emitted) := D.EmitDeltas(s, front);
      var (after, more) := D.EmitDelta(before, last);
      var b1 := FoldEmissions(capacity, b, emitted);
      var plan := D.DeltaPlan(last, after.lastEmittedTs);
      FoldConcat(capacity, b, emitted, more);
      FoldTagged(capacity, b1, BookChunks(plan, last.bids, last.asks), D.DepthDelta(last.exchangeTs));
      DeltaFoldsWhole(capacity, b1, plan, last.bids, last.asks);
      WithLevelsConcat(capacity, b, AllBids(front), AllAsks(front), last.bids, last.asks,
                       BookState.Valid, BookState.Valid);
    }
  }

  /** A snapshot goes live exactly when it says something and the newer diffs go on from it. The book is then the
      snapshot and those diffs, in order; otherwise nothing is sent and only older diffs are forgotten. */
  lemma SnapshotSplicesExactly(config: Config, r: Replica, snapshot: D.DepthSnapshot)
    requires r.book.state.Valid? || r.book == EMPTY_BOOK
    ensures var r' := Step(config, r, Snap(snapshot));
            var newer := Newer(config.rule, snapshot.lastId, r.sequencer.buffer);
            var isEmpty := snapshot.bids == [] && snapshot.asks == [];
            && (!isEmpty && GoesOnFrom(config.rule, snapshot.lastId, newer) ==>
                  && r'.sequencer.state.Live? && r'.sequencer.buffer == [] && !r'.sequencer.overflowWarned
                  && r'.sequencer.bookUpdateId == (if newer == [] then snapshot.lastId else newer[|newer| - 1].finalId)
                  && r'.book == WithLevels(config.bookCapacity,
                                           WithLevels(config.bookCapacity, EMPTY_BOOK, snapshot.bids, snapshot.asks,
                                                      BookState.Valid),
                                           AllBids(newer), AllAsks(newer), BookState.Valid))
            && (isEmpty || !GoesOnFrom(config.rule, snapshot.lastId, newer) ==>
                  r' == r.(sequencer := r.sequencer.(buffer := if isEmpty then r.sequencer.buffer else newer)))
  {
    var capacity, s := config.bookCapacity, r.sequencer;
    var (s', outcome, out) := D.OnSnapshot(config.rule, s, snapshot);
    var kept := D.Retained(config.rule, snapshot.lastId, s.buffer);
    NewerIsRetained(config.rule, snapshot.lastId, s.buffer);
    assert r.log + [] == r.log;
    if outcome.Applied? {
      var stamp := Max(s.lastEmittedTs, snapshot.receivedTs);
      var plan := ChunkPlan(Snapshot, snapshot.lastId, None, stamp);
      var head := D.Tagged(BookChunks(plan, snapshot.bids, snapshot.asks), D.NoMeta);
      FoldTagged(capacity, r.book, BookChunks(plan, snapshot.bids, snapshot.asks), D.NoMeta);
      SnapshotFoldsWhole(capacity, r.book, plan, snapshot.bids, snapshot.asks);
      var start := s.(buffer := [], lastEmittedTs := stamp, bookUpdateId := snapshot.lastId);
      FoldConcat(capacity, r.book, head, D.EmitDeltas(start, kept).1);
      DeltasFoldWhole(capacity, start, FoldEmissions(capacity, r.book, head), kept);
    }
  }

  /** What a snapshot that goes live sends first are its own chunks, under its own id and with no venue stamp; a notice
      of another lane's stamp only raises the floor. */
  lemma SnapshotsAreSentFirst(config: Config, r: Replica, snapshot: D.DepthSnapshot, i: nat)
    requires r.sequencer.state.AwaitingSnapshot? && Step(config, r, Snap(snapshot)).sequencer.state.Live?
    requires i < |BookChunks(ChunkPlan(Snapshot, snapshot.lastId, None,
                                       Later(r.sequencer.lastEmittedTs, snapshot.receivedTs)),
                             snapshot.bids, snapshot.asks)|
    ensures var r', stamp := Step(config, r, Snap(snapshot)), Later(r.sequencer.lastEmittedTs, snapshot.receivedTs);
            && |r.log| + i < |r'.log|
            && var e := r'.log[|r.log| + i];
               && e.message.BookMessage? && e.message.chunk.kind.Snapshot? && e.meta == D.NoMeta
               && e.message.chunk.updateId == snapshot.lastId && e.message.chunk.exchangeTs == None
               && e.message.chunk.receivedTs == e.message.chunk.queuedTs == stamp
  {
    var stamp := Later(r.sequencer.lastEmittedTs, snapshot.receivedTs);
    var plan := ChunkPlan(Snapshot, snapshot.lastId, None, stamp);
    ChunksFollowThePlan(plan, snapshot.bids, snapshot.asks);
    hide BookChunks, FoldEmissions, D.EmitDeltas, D.ChainedFrom, D.Retained;
  }

  lemma NoticesRaiseTheFloor(config: Config, r: Replica, ts: I64)
    ensures var r' := Step(config, r, Floor(ts));
            && r'.log == r.log && r'.book == r.book
            && r'.sequencer == r.sequencer.(lastEmittedTs := Later(r.sequencer.lastEmittedTs, ts))
  {
    assert r.log + [] == r.log;
  }

  lemma {:induction false} NewerIsRetained(rule: D.ChainRule, lastId: U64, diffs: seq<D.DepthDiff>)
    ensures Newer(rule, lastId, diffs) == D.Retained(rule, lastId, diffs)
    ensures forall diff :: diff in Newer(rule, lastId, diffs) ==>
              if rule.Spot? then diff.finalId > lastId else diff.finalId >= lastId
  {
    if diffs != [] {
      NewerIsRetained(rule, lastId, diffs[1..]);
    }
  }

  /** Over every interleaving of diffs, snapshots and floor notices, whatever order they arrive in and for
      both chain rules, the hot book is valid exactly when the sequencer is live, and then it is the venue's
      book at the sequencer's update id. */
  lemma {:induction false} EveryRunReplicates(venue: Venue, config: Config, events: seq<Event>)
    requires config.bookCapacity > 0 && forall event :: event in events ==> Conforms(venue, event)
    ensures Replicating(venue, config, Run(config, events))
    decreases |events|
  {
    if events != [] {
      var front, last := events[..|events| - 1], events[|events| - 1];
      EveryRunReplicates(venue, config, front);
      assert Conforms(venue, last);
      match last
      case Diff(diff) => DiffKeeps(venue, config, Run(config, front), diff);
      case Snap(snapshot) => SnapshotKeeps(venue, config, Run(config, front), snapshot);
      case Floor(_) =>
    }
  }

  /** What a reader of the hot book may conclude about the venue, with trimming allowed for: a present
      level is the venue's quantity at that price, and above the trim line presence is exact. */
  lemma ReadingsAreTheVenues(venue: Venue, config: Config, events: seq<Event>, price: int)
    requires config.bookCapacity > 0 && forall event :: event in events ==> Conforms(venue, event)
    requires Run(config, events).book.state.Valid?
    ensures var r := Run(config, events);
            var theirs := venue(r.sequencer.bookUpdateId);
            var bid, ask := LevelStateOf(Descending, r.book.bids.levels, price),
                            LevelStateOf(Ascending, r.book.asks.levels, price);
            && (bid.Present? ==> price in theirs.bids && theirs.bids[price] == bid.qty)
            && (ask.Present? ==> price in theirs.asks && theirs.asks[price] == ask.qty)
            && (Untrimmed(Descending, r.book.bids.bestTrimmed, price) ==> (bid.Present? <==> price in theirs.bids))
            && (Untrimmed(Ascending, r.book.asks.bestTrimmed, price) ==> (ask.Present? <==> price in theirs.asks))
  {
    EveryRunReplicates(venue, config, events);
    var r := Run(config, events);
    LevelStateIsSound(Descending, config.bookCapacity, r.book.bids, price);
    LevelStateIsSound(Ascending, config.bookCapacity, r.book.asks, price);
  }

  // ---------------------------------------------------------------- stamps

  function StampOf(e: D.Emission): int {
    match e.message
    case BookMessage(chunk) => chunk.receivedTs
    case ResetMessage(receivedTs, _) => receivedTs
  }

  /** Stamps never step back, and none exceeds the emitter's floor. */
  ghost predicate Stamped(log: seq<D.Emission>, floor: int) {
    && (forall i, j :: 0 <= i <= j < |log| ==> StampOf(log[i]) <= StampOf(log[j]))
    && (forall i :: 0 <= i < |log| ==> StampOf(log[i]) <= floor)
  }

  ghost predicate AllAt(out: seq<D.Emission>, stamp: int) {
    forall i :: 0 <= i < |out| ==> StampOf(out[i]) == stamp
  }

  lemma StampedExtends(log: seq<D.Emission>, floor: int, out: seq<D.Emission>, stamp: int)
    requires Stamped(log, floor) && AllAt(out, stamp) && floor <= stamp
    ensures Stamped(log + out, stamp)
  {
  }

  lemma CutIsAllAt(plan: ChunkPlan, bids: seq<Level>, asks: seq<Level>, meta: D.VenueMeta)
    ensures AllAt(D.Tagged(BookChunks(plan, bids, asks), meta), plan.receivedTs)
  {
    BookIsCarriedWhole(plan, bids, asks);
  }

  lemma {:induction false} DeltasAreStamped(log: seq<D.Emission>, s: D.SequencerView, diffs: seq<D.DepthDiff>)
    requires Stamped(log, s.lastEmittedTs)
    ensures var (s', out) := D.EmitDeltas(s, diffs);
            Stamped(log + out, s'.lastEmittedTs) && s.lastEmittedTs <= s'.lastEmittedTs
    decreases |diffs|
  {
    if diffs == [] {
      assert log + [] == log;
    } else {
      var front, last := diffs[..|diffs| - 1], diffs[|diffs| - 1];
      DeltasAreStamped(log, s, front);
      var (before, emitted) := D.EmitDeltas(s, front);
      var (after, more) := D.EmitDelta(before, last);
      CutIsAllAt(D.DeltaPlan(last, after.lastEmittedTs), last.bids, last.asks, D.DepthDelta(last.exchangeTs));
      StampedExtends(log + emitted, before.lastEmittedTs, more, after.lastEmittedTs);
      assert log + (emitted + more) == log + emitted + more;
    }
  }

  /** A resync never queues behind itself: over any run the emitted receive stamps never decrease. */
  lemma {:induction false} StampsNeverDecrease(config: Config, events: seq<Event>)
    ensures Stamped(Run(config, events).log, Run(config, events).sequencer.lastEmittedTs)
    decreases |events|
  {
    if events != [] {
      var front, last := events[..|events| - 1], events[|events| - 1];
      StampsNeverDecrease(config, front);
      var r := Run(config, front);
      var (s', out) := React(config, r.sequencer, last);
      match last
      case Floor(_) => assert r.log + [] == r.log;
      case Diff(diff) =>
        var stamp := Max(r.sequencer.lastEmittedTs, diff.receivedTs);
        CutIsAllAt(D.DeltaPlan(diff, stamp), diff.bids, diff.asks, D.DepthDelta(diff.exchangeTs));
        if out == [] {
          assert r.log + [] == r.log;
        }
        StampedExtends(r.log, r.sequencer.lastEmittedTs, out, if out == [] then s'.lastEmittedTs else stamp);
      case Snap(snapshot) => SnapshotIsStamped(config, r, snapshot);
    }
  }

  lemma SnapshotIsStamped(config: Config, r: Replica, snapshot: D.DepthSnapshot)
    requires Stamped(r.log, r.sequencer.lastEmittedTs)
    ensures var (s', outcome, out) := D.OnSnapshot(config.rule, r.sequencer, snapshot);
            Stamped(r.log + out, s'.lastEmittedTs)
  {
    var s := r.sequencer;
    var (s', outcome, out) := D.OnSnapshot(config.rule, s, snapshot);
    if outcome.Stale? {
      assert r.log + [] == r.log;
    } else {
      var stamp := Max(s.lastEmittedTs, snapshot.receivedTs);
      var plan := ChunkPlan(Snapshot, snapshot.lastId, None, stamp);
      var head := D.Tagged(BookChunks(plan, snapshot.bids, snapshot.asks), D.NoMeta);
      CutIsAllAt(plan, snapshot.bids, snapshot.asks, D.NoMeta);
      StampedExtends(r.log, s.lastEmittedTs, head, stamp);
      var start := s.(buffer := [], lastEmittedTs := stamp, bookUpdateId := snapshot.lastId);
      var kept := D.Retained(config.rule, snapshot.lastId, s.buffer);
      DeltasAreStamped(r.log + head, start, kept);
      assert r.log + (head + D.EmitDeltas(start, kept).1) == r.log + head + D.EmitDeltas(start, kept).1;
    }
  }
}
