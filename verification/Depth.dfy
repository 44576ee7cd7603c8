/** The depth sequencer (src/adapters/binance/depth.rs): buffers venue diffs, splices them onto a REST
    snapshot, and resets the book when the update chain breaks. */
module Depth {
  import opened Common
  import opened Book
  import opened Chunk

  datatype ChainRule = Spot | Perp

  datatype DepthDiff = DepthDiff(
    firstId: U64, finalId: U64, prevFinalId: Option<U64>,
    bids: seq<Level>, asks: seq<Level>, exchangeTs: int, receivedTs: I64)

  datatype DepthSnapshot = DepthSnapshot(lastId: U64, bids: seq<Level>, asks: seq<Level>, receivedTs: I64)

  datatype DiffOutcome = Applied | AlreadyApplied | Buffered | Resync | Overflow

  datatype SnapshotOutcome = Applied | Stale

  datatype Message = BookMessage(chunk: BookChunk) | ResetMessage(receivedTs: int, queuedTs: int)

  datatype VenueMeta = DepthDelta(exchangeTs: int) | DepthReset(exchangeTs: int) | NoMeta

  datatype Emission = Emission(message: Message, meta: VenueMeta)

  datatype SeqState = AwaitingSnapshot | Live

  datatype SequencerView = SequencerView(
    state: SeqState, buffer: seq<DepthDiff>, bookUpdateId: U64, lastEmittedTs: I64, overflowWarned: bool)

  const NEW_SEQUENCER := SequencerView(SeqState.AwaitingSnapshot, [], 0, I64_MIN, false)

  // ---------------------------------------------------------------- chaining

  predicate ChainsOnto(rule: ChainRule, anchor: U64, diff: DepthDiff) {
    match rule
    case Spot => anchor < U64_MAX && diff.firstId == anchor + 1
    case Perp => diff.prevFinalId == Some(anchor)
  }

  /** The first buffered diff need only span the snapshot's id rather than follow it. */
  predicate SpansSeam(rule: ChainRule, lastId: U64, diff: DepthDiff) {
    match rule
    case Spot => lastId < U64_MAX && diff.firstId <= lastId + 1
    case Perp => diff.firstId <= lastId <= diff.finalId
  }

  predicate ChainedFrom(rule: ChainRule, lastId: U64, buffer: seq<DepthDiff>) {
    && (rule.Spot? ==> lastId != U64_MAX)
    && (buffer != [] ==> SpansSeam(rule, lastId, buffer[0]))
    && (forall i :: 1 <= i < |buffer| ==> ChainsOnto(rule, buffer[i - 1].finalId, buffer[i]))
  }

  predicate OutlivesSnapshot(rule: ChainRule, lastId: U64, diff: DepthDiff) {
    match rule case Spot => diff.finalId > lastId case Perp => diff.finalId >= lastId
  }

  function Retained(rule: ChainRule, lastId: U64, buffer: seq<DepthDiff>): seq<DepthDiff> {
    Filter((diff: DepthDiff) => OutlivesSnapshot(rule, lastId, diff), buffer)
  }

  // ---------------------------------------------------------------- what each step emits

  function Tagged(chunks: seq<BookChunk>, meta: VenueMeta): seq<Emission> {
    seq(|chunks|, i requires 0 <= i < |chunks| => Emission(BookMessage(chunks[i]), meta))
  }

  function DeltaPlan(diff: DepthDiff, stamp: I64): ChunkPlan {
    ChunkPlan(Delta, diff.finalId, Some(diff.exchangeTs), stamp)
  }

  function DeltaEmissions(diff: DepthDiff, stamp: I64): seq<Emission> {
    Tagged(BookChunks(DeltaPlan(diff, stamp), diff.bids, diff.asks), DepthDelta(diff.exchangeTs))
  }

  function EmitDelta(s: SequencerView, diff: DepthDiff): (SequencerView, seq<Emission>) {
    var stamp := Max(s.lastEmittedTs, diff.receivedTs);
    (s.(lastEmittedTs := stamp, bookUpdateId := diff.finalId), DeltaEmissions(diff, stamp))
  }

  function EmitDeltas(s: SequencerView, diffs: seq<DepthDiff>): (SequencerView, seq<Emission>)
    decreases |diffs|
  {
    if diffs == [] then (s, [])
    else
      var (before, emitted) := EmitDeltas(s, diffs[..|diffs| - 1]);
      var (after, more) := EmitDelta(before, diffs[|diffs| - 1]);
      (after, emitted + more)
  }

  function BeginResync(s: SequencerView, diff: DepthDiff): (SequencerView, seq<Emission>) {
    var stamp := Max(s.lastEmittedTs, diff.receivedTs);
    (s.(state := SeqState.AwaitingSnapshot, buffer := [diff], lastEmittedTs := stamp, overflowWarned := false),
     [Emission(ResetMessage(stamp, stamp), DepthReset(diff.exchangeTs))])
  }

  function OnDiff(rule: ChainRule, capacity: nat, s: SequencerView, diff: DepthDiff)
    : (SequencerView, DiffOutcome, seq<Emission>)
  {
    if s.state.AwaitingSnapshot? then
      if |s.buffer| >= capacity then (s.(buffer := [diff], overflowWarned := true), Overflow, [])
      else (s.(buffer := s.buffer + [diff]), Buffered, [])
    else if !(rule.Spot? && s.bookUpdateId == U64_MAX) && ChainsOnto(rule, s.bookUpdateId, diff) then
      var (s', out) := EmitDelta(s, diff);
      (s', DiffOutcome.Applied, out)
    else if rule.Spot? && s.bookUpdateId != U64_MAX && diff.finalId <= s.bookUpdateId then
      (s, AlreadyApplied, [])
    else
      var (s', out) := BeginResync(s, diff);
      (s', Resync, out)
  }

  function OnSnapshot(rule: ChainRule, s: SequencerView, snapshot: DepthSnapshot)
    : (SequencerView, SnapshotOutcome, seq<Emission>)
  {
    if snapshot.bids == [] && snapshot.asks == [] then (s, Stale, [])
    else
      var kept := Retained(rule, snapshot.lastId, s.buffer);
      if !ChainedFrom(rule, snapshot.lastId, kept) then (s.(buffer := kept), Stale, [])
      else
        var stamp := Max(s.lastEmittedTs, snapshot.receivedTs);
        var plan := ChunkPlan(Snapshot, snapshot.lastId, None, stamp);
        var head := Tagged(BookChunks(plan, snapshot.bids, snapshot.asks), NoMeta);
        var (s', deltas) := EmitDeltas(s.(buffer := [], lastEmittedTs := stamp, bookUpdateId := snapshot.lastId), kept);
        (s'.(state := SeqState.Live, overflowWarned := false), SnapshotOutcome.Applied, head + deltas)
  }

  // ---------------------------------------------------------------- the sequencer itself

  class DepthSequencer {
    const rule: ChainRule
    const capacity: nat
    var state: SeqState
    var buffer: seq<DepthDiff>
    var bookUpdateId: U64
    const chunks: ChunkEmitter
    var overflowWarned: bool

    ghost function View(): SequencerView
      reads this, chunks
    {
      SequencerView(state, buffer, bookUpdateId, chunks.lastEmittedTs, overflowWarned)
    }

    constructor (rule: ChainRule, bufferCapacity: nat)
      ensures this.rule == rule && capacity == bufferCapacity && fresh(chunks)
      ensures View() == NEW_SEQUENCER
    {
      this.rule, this.capacity := rule, bufferCapacity;
      state, buffer, bookUpdateId, overflowWarned := SeqState.AwaitingSnapshot, [], 0, false;
      chunks := new ChunkEmitter();
    }

    method NoteEmitFloor(floorTs: I64)
      modifies chunks
      ensures View() == old(View()).(lastEmittedTs := Max(old(View()).lastEmittedTs, floorTs))
    {
      chunks.NoteEmitFloor(floorTs);
    }

    method HandleDiff(diff: DepthDiff) returns (outcome: DiffOutcome, out: seq<Emission>)
      modifies this, chunks
      ensures (View(), outcome, out) == OnDiff(rule, capacity, old(View()), diff)
    {
      match state {
        case Live => outcome, out := OnDiffLive(diff);
        case AwaitingSnapshot =>
          outcome := BufferDiff(diff);
          out := [];
      }
    }

    method OnDiffLive(diff: DepthDiff) returns (outcome: DiffOutcome, out: seq<Emission>)
      requires state.Live?
      modifies this, chunks
      ensures (View(), outcome, out) == OnDiff(rule, capacity, old(View()), diff)
    {
      if rule == Spot && bookUpdateId == U64_MAX {
        out := StartResync(diff);
        return Resync, out;
      }
      if ChainsOnto(rule, bookUpdateId, diff) {
        out := SendDelta(diff);
        bookUpdateId := diff.finalId;
        return DiffOutcome.Applied, out;
      }
      if rule == Spot && diff.finalId <= bookUpdateId {
        return AlreadyApplied, [];
      }
      out := StartResync(diff);
      outcome := Resync;
    }

    method BufferDiff(diff: DepthDiff) returns (outcome: DiffOutcome)
      requires state.AwaitingSnapshot?
      modifies this`buffer, this`overflowWarned
      ensures (View(), outcome, []) == OnDiff(rule, capacity, old(View()), diff)
    {
      if |buffer| >= capacity {
        overflowWarned := true;
        buffer := [diff];
        return Overflow;
      }
      buffer := buffer + [diff];
      outcome := Buffered;
    }

    method StartResync(diff: DepthDiff) returns (out: seq<Emission>)
      modifies this, chunks
      ensures (View(), out) == BeginResync(old(View()), diff)
    {
      var receivedTs := chunks.ClampEmitTs(diff.receivedTs);
      out := [Emission(ResetMessage(receivedTs, receivedTs), DepthReset(diff.exchangeTs))];
      state := SeqState.AwaitingSnapshot;
      buffer := [];
      overflowWarned := false;
      buffer := buffer + [diff];
      assert buffer == [diff];
    }

    method HandleSnapshot(snapshot: DepthSnapshot) returns (outcome: SnapshotOutcome, out: seq<Emission>)
      modifies this, chunks
      ensures (View(), outcome, out) == OnSnapshot(rule, old(View()), snapshot)
    {
      if snapshot.bids == [] && snapshot.asks == [] {
        return Stale, [];
      }
      var lastId := snapshot.lastId;
      buffer := Retained(rule, lastId, buffer);
      var chained := BufferChainsFrom(lastId);
      if !chained {
        return Stale, [];
      }
      var stamp := chunks.ClampEmitTs(snapshot.receivedTs);
      var plan := ChunkPlan(Snapshot, lastId, None, stamp);
      var cut := chunks.EmitBook(plan, snapshot.bids, snapshot.asks);
      bookUpdateId := lastId;
      ghost var start := View().(buffer := []);
      var deltas := SendBuffered();
      assert (View(), deltas) == EmitDeltas(start, Retained(rule, lastId, old(buffer)));
      out := Tagged(cut, NoMeta) + deltas;
      state := Live;
      overflowWarned := false;
      outcome := SnapshotOutcome.Applied;
    }

    method SendBuffered() returns (out: seq<Emission>)
      modifies this`buffer, this`bookUpdateId, chunks
      ensures (View(), out) == EmitDeltas(old(View()).(buffer := []), old(buffer))
    {
      var buffered := buffer;
      buffer := [];
      out := [];
      ghost var start := View();
      for i := 0 to |buffered|
        invariant (View(), out) == EmitDeltas(start, buffered[..i])
      {
        assert buffered[..i + 1][..i] == buffered[..i];
        var more := SendDelta(buffered[i]);
        bookUpdateId := buffered[i].finalId;
        out := out + more;
      }
      assert buffered[..|buffered|] == buffered;
    }

    method BufferChainsFrom(lastId: U64) returns (chained: bool)
      ensures chained == ChainedFrom(rule, lastId, buffer)
    {
      if rule == Spot && lastId == U64_MAX {
        return false;
      }
      var anchor := lastId;
      for index := 0 to |buffer|
        invariant index == 0 ==> anchor == lastId
        invariant index > 0 ==> SpansSeam(rule, lastId, buffer[0]) && anchor == buffer[index - 1].finalId
        invariant forall i :: 1 <= i < index ==> ChainsOnto(rule, buffer[i - 1].finalId, buffer[i])
      {
        var spans := if index == 0 then SpansSeam(rule, lastId, buffer[index])
                     else ChainsOnto(rule, anchor, buffer[index]);
        if !spans {
          return false;
        }
        anchor := buffer[index].finalId;
      }
      chained := true;
    }

    method SendDelta(diff: DepthDiff) returns (out: seq<Emission>)
      modifies chunks
      ensures (View().(bookUpdateId := diff.finalId), out) == EmitDelta(old(View()), diff)
    {
      var stamp := chunks.ClampEmitTs(diff.receivedTs);
      var cut := chunks.EmitBook(DeltaPlan(diff, stamp), diff.bids, diff.asks);
      out := Tagged(cut, DepthDelta(diff.exchangeTs));
    }
  }
}
