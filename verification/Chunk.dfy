/** How a book is split for the wire (src/adapters/chunk.rs): chunks of up to twenty levels, all the bids and
    then all the asks, with the last chunk marked. */
module Chunk {
  import opened Common
  import opened Book

  datatype ChunkPlan = ChunkPlan(kind: BookChunkKind, updateId: int, exchangeTs: Option<int>, receivedTs: int)

  function OneChunk(plan: ChunkPlan, side: Side, group: seq<Level>, isLastChunk: bool): (chunk: BookChunk)
    requires |group| <= BOOK_CHUNK_LEVELS
    ensures ActiveLevels(chunk) == group
  {
    RawChunk(plan.kind, side, group + seq(BOOK_CHUNK_LEVELS - |group|, _ => Level(0, 0)), |group|, isLastChunk,
             plan.updateId, plan.exchangeTs, plan.receivedTs, plan.receivedTs)
  }

  function SideChunks(plan: ChunkPlan, side: Side, levels: seq<Level>, sideIsLast: bool): seq<BookChunk> {
    if |levels| == 0 then []
    else if |levels| <= BOOK_CHUNK_LEVELS then [OneChunk(plan, side, levels, sideIsLast)]
    else
      [OneChunk(plan, side, levels[..BOOK_CHUNK_LEVELS], false)]
      + SideChunks(plan, side, levels[BOOK_CHUNK_LEVELS..], sideIsLast)
  }

  function BookChunks(plan: ChunkPlan, bids: seq<Level>, asks: seq<Level>): seq<BookChunk> {
    if bids == [] && asks == [] then
      if plan.kind.Snapshot? then [OneChunk(plan, Buy, [], true)] else []
    else
      SideChunks(plan, Buy, bids, asks == []) + SideChunks(plan, Sell, asks, true)
  }

  // ---------------------------------------------------------------- what a cut book carries

  /** The levels a run of chunks carries for one side, in order. */
  function Carried(chunks: seq<BookChunk>, side: Side): seq<Level> {
    if chunks == [] then [] else LevelsFor(chunks[0], side) + Carried(chunks[1..], side)
  }

  function LevelsFor(chunk: BookChunk, side: Side): seq<Level> {
    if chunk.side == side then ActiveLevels(chunk) else []
  }

  lemma {:induction false} CarriedConcat(a: seq<BookChunk>, b: seq<BookChunk>, side: Side)
    ensures Carried(a + b, side) == Carried(a, side) + Carried(b, side)
  {
    if a == [] {
      assert a + b == b;
    } else {
      assert (a + b)[1..] == a[1..] + b;
      CarriedConcat(a[1..], b, side);
    }
  }

  lemma {:induction false} SideIsCarriedWhole(plan: ChunkPlan, side: Side, levels: seq<Level>, sideIsLast: bool)
    ensures var chunks := SideChunks(plan, side, levels, sideIsLast);
            && (forall s :: Carried(chunks, s) == if s == side then levels else [])
            && |chunks| == (|levels| + BOOK_CHUNK_LEVELS - 1) / BOOK_CHUNK_LEVELS
            && (forall i :: 0 <= i < |chunks| ==>
                  && chunks[i].side == side && chunks[i].kind == plan.kind
                  && chunks[i].receivedTs == plan.receivedTs
                  && (chunks[i].isLastChunk <==> sideIsLast && i == |chunks| - 1)
                  && (i < |chunks| - 1 ==> chunks[i].len == BOOK_CHUNK_LEVELS))
    decreases |levels|
  {
    if |levels| > BOOK_CHUNK_LEVELS {
      var head := levels[..BOOK_CHUNK_LEVELS];
      var rest := levels[BOOK_CHUNK_LEVELS..];
      SideIsCarriedWhole(plan, side, rest, sideIsLast);
      var chunks := SideChunks(plan, side, levels, sideIsLast);
      assert chunks[1..] == SideChunks(plan, side, rest, sideIsLast);
      assert levels == head + rest;
    } else if |levels| > 0 {
      var chunks := SideChunks(plan, side, levels, sideIsLast);
      assert chunks[1..] == [];
    }
  }

  /** Every chunk bears the plan's stamps, and only the last closes the book. */
  ghost predicate Stamped(plan: ChunkPlan, chunks: seq<BookChunk>, closes: bool) {
    forall i :: 0 <= i < |chunks| ==>
      && chunks[i].kind == plan.kind && chunks[i].receivedTs == plan.receivedTs
      && (chunks[i].isLastChunk <==> closes && i == |chunks| - 1)
  }

  lemma StampedConcat(plan: ChunkPlan, b: seq<BookChunk>, a: seq<BookChunk>)
    requires Stamped(plan, b, a == []) && Stamped(plan, a, true)
    ensures Stamped(plan, b + a, true)
  {
  }

  lemma EmptyBookIsCarried(plan: ChunkPlan)
    ensures var chunks := BookChunks(plan, [], []);
            && Carried(chunks, Buy) == [] && Carried(chunks, Sell) == []
            && (chunks == [] <==> plan.kind.Delta?) && Stamped(plan, chunks, true)
  {
    assert plan.kind.Snapshot? ==> BookChunks(plan, [], [])[1..] == [];
  }

  /** A cut book carries each side whole and in order, and closes with its only terminating chunk. A
      snapshot always has one; a delta without levels sends nothing. */
  lemma BookIsCarriedWhole(plan: ChunkPlan, bids: seq<Level>, asks: seq<Level>)
    ensures var chunks := BookChunks(plan, bids, asks);
            && Carried(chunks, Buy) == bids && Carried(chunks, Sell) == asks
            && (chunks == [] <==> plan.kind.Delta? && bids == [] && asks == [])
            && Stamped(plan, chunks, true)
  {
    hide SideChunks, Carried, Stamped;
    if bids == [] && asks == [] {
      EmptyBookIsCarried(plan);
      return;
    }
    var b, a := SideChunks(plan, Buy, bids, asks == []), SideChunks(plan, Sell, asks, true);
    SideIsCarriedWhole(plan, Buy, bids, asks == []);
    SideIsCarriedWhole(plan, Sell, asks, true);
    CarriedConcat(b, a, Buy);
    CarriedConcat(b, a, Sell);
    StampedConcat(plan, b, a);
  }

  /** Every chunk of a book says what kind of message it is part of, which update it ends at and when the venue says
      that was. */
  lemma ChunksFollowThePlan(plan: ChunkPlan, bids: seq<Level>, asks: seq<Level>)
    ensures forall i :: 0 <= i < |BookChunks(plan, bids, asks)| ==>
              var chunk := BookChunks(plan, bids, asks)[i];
              && chunk.kind == plan.kind && chunk.updateId == plan.updateId
              && chunk.exchangeTs == plan.exchangeTs && chunk.receivedTs == chunk.queuedTs == plan.receivedTs
  {
    SideFollowsThePlan(plan, Buy, bids, asks == []);
    SideFollowsThePlan(plan, Sell, asks, true);
  }

  lemma {:induction false} SideFollowsThePlan(plan: ChunkPlan, side: Side, levels: seq<Level>, isLast: bool)
    ensures forall i :: 0 <= i < |SideChunks(plan, side, levels, isLast)| ==>
              var chunk := SideChunks(plan, side, levels, isLast)[i];
              && chunk.kind == plan.kind && chunk.updateId == plan.updateId
              && chunk.exchangeTs == plan.exchangeTs && chunk.receivedTs == chunk.queuedTs == plan.receivedTs
    decreases |levels|
  {
    if |levels| > BOOK_CHUNK_LEVELS {
      SideFollowsThePlan(plan, side, levels[BOOK_CHUNK_LEVELS..], isLast);
    }
  }

  // ---------------------------------------------------------------- folding chunks back

  function ApplyChunks(capacity: nat, b: BookView, chunks: seq<BookChunk>): BookView
    decreases |chunks|
  {
    if chunks == [] then b else ApplyChunks(capacity, ApplyChunk(capacity, b, chunks[0]), chunks[1..])
  }

  /** Both sides with a whole run of levels applied, and the state the run leaves. */
  function WithLevels(capacity: nat, b: BookView, bids: seq<Level>, asks: seq<Level>, state: BookState): BookView {
    BookView(ApplyLevels(Descending, capacity, b.bids, bids), ApplyLevels(Ascending, capacity, b.asks, asks), state)
  }

  lemma OneChunkFolds(capacity: nat, b: BookView, c: BookChunk)
    requires if c.kind.Delta? then b.state.Valid? else b.state.AwaitingSnapshot?
    ensures ApplyChunk(capacity, b, c)
         == WithLevels(capacity, b, LevelsFor(c, Buy), LevelsFor(c, Sell), ApplyChunk(capacity, b, c).state)
    ensures ApplyChunk(capacity, b, c).state.Valid? <==> c.kind.Delta? || c.isLastChunk
  {
  }

  lemma WithLevelsConcat(capacity: nat, b: BookView, bids: seq<Level>, asks: seq<Level>, moreBids: seq<Level>,
                         moreAsks: seq<Level>, middle: BookState, last: BookState)
    ensures WithLevels(capacity, WithLevels(capacity, b, bids, asks, middle), moreBids, moreAsks, last)
         == WithLevels(capacity, b, bids + moreBids, asks + moreAsks, last)
  {
    ApplyLevelsConcat(Descending, capacity, b.bids, bids, moreBids);
    ApplyLevelsConcat(Ascending, capacity, b.asks, asks, moreAsks);
    hide ApplyLevels;
  }

  lemma {:induction false} FoldDelta(capacity: nat, b: BookView, chunks: seq<BookChunk>)
    requires b.state.Valid? && forall i :: 0 <= i < |chunks| ==> chunks[i].kind.Delta?
    ensures ApplyChunks(capacity, b, chunks)
         == WithLevels(capacity, b, Carried(chunks, Buy), Carried(chunks, Sell), BookState.Valid)
    decreases |chunks|
  {
    if chunks == [] {
      return;
    }
    hide ApplyChunk, WithLevels, LevelsFor;
    var c, rest := chunks[0], chunks[1..];
    OneChunkFolds(capacity, b, c);
    FoldDelta(capacity, ApplyChunk(capacity, b, c), rest);
    WithLevelsConcat(capacity, b, LevelsFor(c, Buy), LevelsFor(c, Sell), Carried(rest, Buy), Carried(rest, Sell),
                     ApplyChunk(capacity, b, c).state, BookState.Valid);
  }

  lemma {:induction false} FoldSnapshotTail(capacity: nat, b: BookView, chunks: seq<BookChunk>)
    requires b.state.AwaitingSnapshot? && chunks != []
    requires forall i :: 0 <= i < |chunks| ==>
               chunks[i].kind.Snapshot? && (chunks[i].isLastChunk <==> i == |chunks| - 1)
    ensures ApplyChunks(capacity, b, chunks)
         == WithLevels(capacity, b, Carried(chunks, Buy), Carried(chunks, Sell), BookState.Valid)
    decreases |chunks|
  {
    hide ApplyChunk, WithLevels, LevelsFor;
    var c, rest := chunks[0], chunks[1..];
    var b' := ApplyChunk(capacity, b, c);
    OneChunkFolds(capacity, b, c);
    if rest == [] {
      assert LevelsFor(c, Buy) + Carried(rest, Buy) == LevelsFor(c, Buy);
      assert LevelsFor(c, Sell) + Carried(rest, Sell) == LevelsFor(c, Sell);
    } else {
      FoldSnapshotTail(capacity, b', rest);
      WithLevelsConcat(capacity, b, LevelsFor(c, Buy), LevelsFor(c, Sell), Carried(rest, Buy), Carried(rest, Sell),
                       b'.state, BookState.Valid);
    }
  }

  predicate IsSnapshot(chunk: BookChunk) {
    chunk.kind.Snapshot?
  }

  predicate Completes(chunk: BookChunk) {
    chunk.kind.Snapshot? && chunk.isLastChunk
  }

  /** Until a snapshot completes, deltas leave no trace, wherever they come, and the book is not valid. */
  lemma {:induction false} DeltasWaitForASnapshot(capacity: nat, b: BookView, chunks: seq<BookChunk>)
    requires b.state.AwaitingSnapshot?
    requires forall i :: 0 <= i < |chunks| - 1 ==> !Completes(chunks[i])
    ensures ApplyChunks(capacity, b, chunks) == ApplyChunks(capacity, b, Filter(IsSnapshot, chunks))
    ensures ApplyChunks(capacity, b, chunks).state.Valid? <==> chunks != [] && Completes(chunks[|chunks| - 1])
    decreases |chunks|
  {
    if chunks != [] {
      var b' := ApplyChunk(capacity, b, chunks[0]);
      if |chunks| > 1 {
        assert !Completes(chunks[0]);
        DeltasWaitForASnapshot(capacity, b', chunks[1..]);
      } else {
        assert chunks[1..] == [];
      }
    }
  }

  /** A delta cut into chunks and folded into a valid book has exactly the effect of its levels. */
  lemma DeltaFoldsWhole(capacity: nat, b: BookView, plan: ChunkPlan, bids: seq<Level>, asks: seq<Level>)
    requires plan.kind.Delta? && b.state.Valid?
    ensures ApplyChunks(capacity, b, BookChunks(plan, bids, asks))
                == WithLevels(capacity, b, bids, asks, BookState.Valid)
  {
    BookIsCarriedWhole(plan, bids, asks);
    FoldDelta(capacity, b, BookChunks(plan, bids, asks));
  }

  /** A snapshot cut into chunks and folded in, on top of anything, leaves a valid book built from the
      snapshot alone: a valid book is implicitly reset by the first chunk. */
  lemma SnapshotFoldsWhole(capacity: nat, b: BookView, plan: ChunkPlan, bids: seq<Level>, asks: seq<Level>)
    requires plan.kind.Snapshot? && (b.state.Valid? || b == EMPTY_BOOK)
    ensures ApplyChunks(capacity, b, BookChunks(plan, bids, asks))
         == WithLevels(capacity, EMPTY_BOOK, bids, asks, BookState.Valid)
  {
    BookIsCarriedWhole(plan, bids, asks);
    FoldSnapshotTail(capacity, EMPTY_BOOK, BookChunks(plan, bids, asks));
  }

  // ---------------------------------------------------------------- the cutter itself

  function ChunkCount(total: nat): nat {
    (total + BOOK_CHUNK_LEVELS - 1) / BOOK_CHUNK_LEVELS
  }

  /** Where the chunk of this index starts. */
  function CutAt(index: nat, total: nat): nat {
    Min(index * BOOK_CHUNK_LEVELS, total)
  }

  lemma CutsAdvance(index: nat, total: nat)
    requires index < ChunkCount(total)
    ensures CutAt(index, total) < total
    ensures CutAt(index + 1, total) == CutAt(index, total) + Min(BOOK_CHUNK_LEVELS, total - CutAt(index, total))
    ensures index + 1 == ChunkCount(total) <==> CutAt(index + 1, total) == total
  {
  }

  lemma Regroup<T, U>(s: seq<T>, at: nat, end: nat, done: seq<U>, next: U, left: seq<U>)
    requires at <= end <= |s|
    ensures s[at..][..end - at] == s[at..end] && s[at..][end - at..] == s[end..]
    ensures done + ([next] + left) == done + [next] + left
  {
  }

  lemma CutsCover(total: nat)
    ensures CutAt(ChunkCount(total), total) == total
  {
  }

  lemma CutsNext(plan: ChunkPlan, side: Side, rest: seq<Level>, sideIsLast: bool, cut: nat)
    requires rest != [] && cut == Min(BOOK_CHUNK_LEVELS, |rest|)
    ensures SideChunks(plan, side, rest, sideIsLast)
         == [OneChunk(plan, side, rest[..cut], sideIsLast && cut == |rest|)]
            + SideChunks(plan, side, rest[cut..], sideIsLast)
  {
    assert cut == |rest| ==> rest[..cut] == rest && rest[cut..] == [];
  }

  class ChunkEmitter {
    var lastEmittedTs: I64

    constructor ()
      ensures lastEmittedTs == I64_MIN
    {
      lastEmittedTs := I64_MIN;
    }

    method NoteEmitFloor(floorTs: I64)
      modifies this
      ensures lastEmittedTs == Max(old(lastEmittedTs), floorTs)
    {
      lastEmittedTs := Max(lastEmittedTs, floorTs);
    }

    method ClampEmitTs(receipt: I64) returns (stamp: I64)
      modifies this
      ensures stamp == lastEmittedTs == Max(old(lastEmittedTs), receipt)
    {
      NoteEmitFloor(receipt);
      stamp := lastEmittedTs;
    }

    method EmitBook(plan: ChunkPlan, bids: seq<Level>, asks: seq<Level>) returns (chunks: seq<BookChunk>)
      ensures chunks == BookChunks(plan, bids, asks)
    {
      if bids == [] && asks == [] {
        if plan.kind == Snapshot {
          var only := CutChunk(plan, Buy, [], true);
          return [only];
        }
        return [];
      }
      var bidSideIsLast := asks == [];
      var bidChunks := EmitSide(plan, Buy, bids, bidSideIsLast);
      var askChunks := EmitSide(plan, Sell, asks, true);
      chunks := bidChunks + askChunks;
    }

    method EmitSide(plan: ChunkPlan, side: Side, levels: seq<Level>, sideIsLast: bool) returns (chunks: seq<BookChunk>)
      ensures chunks == SideChunks(plan, side, levels, sideIsLast)
    {
      hide OneChunk;
      var chunkCount := ChunkCount(|levels|);
      chunks := [];
      ghost var rest := levels;
      for index := 0 to chunkCount
        invariant CutAt(index, |levels|) <= |levels| && rest == levels[CutAt(index, |levels|)..]
        invariant SideChunks(plan, side, levels, sideIsLast) == chunks + SideChunks(plan, side, rest, sideIsLast)
      {
        hide SideChunks, CutAt, ChunkCount;
        CutsAdvance(index, |levels|);
        var at, end := CutAt(index, |levels|), CutAt(index + 1, |levels|);
        var chunk := CutChunk(plan, side, levels[at..end], sideIsLast && index + 1 == chunkCount);
        CutsNext(plan, side, rest, sideIsLast, end - at);
        Regroup(levels, at, end, chunks, chunk, SideChunks(plan, side, levels[end..], sideIsLast));
        chunks, rest := chunks + [chunk], levels[end..];
      }
      CutsCover(|levels|);
    }

    /** Fills the fixed-width array with the group; the slots past it stay zero. */
    method CutChunk(plan: ChunkPlan, side: Side, group: seq<Level>, isLastChunk: bool) returns (chunk: BookChunk)
      requires |group| <= BOOK_CHUNK_LEVELS
      ensures chunk == OneChunk(plan, side, group, isLastChunk)
    {
      var filled := new Level[BOOK_CHUNK_LEVELS](_ => Level(0, 0));
      forall i | 0 <= i < |group| {
        filled[i] := group[i];
      }
      chunk := RawChunk(plan.kind, side, filled[..], |group|, isLastChunk,
                        plan.updateId, plan.exchangeTs, plan.receivedTs, plan.receivedTs);
    }
  }
}
