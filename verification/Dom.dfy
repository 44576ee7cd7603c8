/** The depth ladder (src/workstation/dom_view.rs): ticks grouped into buckets on the absolute grid, a fixed
    number of buckets to a side, and every level shown in the bucket it belongs to. */
module Dom {
  import opened Common
  import opened Arith
  import opened Decimal

  const BASIS_POINTS_PER_UNIT: int := 10_000

  // ---------------------------------------------------------------- the grid

  datatype Grouping = Ticks(perBucket: int) | Bps(numerator: int, denominator: int)

  /** Never less than a tick to a bucket; a count too wide for 64 bits is the widest there is. */
  function TicksPerBucket(grouping: Grouping, midHalfTicks: int): (ticks: int)
    ensures ticks >= 1
  {
    match grouping
    case Ticks(perBucket) => Max(perBucket, 1)
    case Bps(numerator, denominator) =>
      var ticks := TruncDiv(midHalfTicks * numerator, 2 * BASIS_POINTS_PER_UNIT * Max(denominator, 1));
      Max(if I64_MIN <= ticks <= I64_MAX then ticks else I64_MAX, 1)
  }

  lemma TruncDivBounds(a: int, d: int)
    requires d > 0
    ensures a >= 0 ==> TruncDiv(a, d) >= 0 && TruncDiv(a, d) * d <= a < TruncDiv(a, d) * d + d
    ensures a < 0 ==> TruncDiv(a, d) <= 0
  {
    if a >= 0 {
      DivBounds(a, d);
      DivMono(0, a, d);
    } else {
      DivMono(0, -a, d);
    }
  }

  /** A bucket asked for in basis points is the widest whole number of ticks within that share of the mid, which
      is counted in half-ticks; at least one tick, and at most what 64 bits hold. */
  lemma BucketIsTheShare(numerator: int, denominator: int, midHalfTicks: int)
    requires midHalfTicks * numerator >= 0
    ensures var ticks := TicksPerBucket(Bps(numerator, denominator), midHalfTicks);
            var tick, share := 2 * BASIS_POINTS_PER_UNIT * Max(denominator, 1), midHalfTicks * numerator;
            && (1 < ticks < I64_MAX ==> ticks * tick <= share < ticks * tick + tick)
            && (ticks == 1 ==> share < tick + tick)
            && (ticks == I64_MAX ==> share >= I64_MAX * tick)
            && 1 <= ticks <= I64_MAX
  {
    var tick, share := 2 * BASIS_POINTS_PER_UNIT * Max(denominator, 1), midHalfTicks * numerator;
    TruncDivBounds(share, tick);
    var exact := TruncDiv(share, tick);
    hide TruncDiv;
    if exact >= I64_MAX {
      MulMono(I64_MAX, exact, tick);
    }
    if exact <= 1 {
      MulMono(exact, 1, tick);
    }
  }

  function TickIndex(price: int, tick: int): Option<int> {
    if tick <= 0 || price % tick != 0 then None else Some(price / tick)
  }

  /** A price has a tick exactly when it is that many of them. */
  lemma TicksAreMultiples(price: int, tick: int, tickIndex: int)
    ensures TickIndex(price, tick) == Some(tickIndex) <==> tick > 0 && price == tickIndex * tick
  {
    if tick > 0 {
      DivMod(price, tick);
      if price == tickIndex * tick {
        DivUnique(price, tick, tickIndex);
      }
    }
  }

  function BucketLowEdge(tickIndex: int, width: int): int
    requires width > 0
  {
    SaturatingI64(GridFloor(tickIndex, width))
  }

  /** The first tick above the mid. */
  function AskAnchor(midHalfTicks: int): int {
    midHalfTicks / 2 + 1
  }

  /** The last tick below it. */
  function BidAnchor(midHalfTicks: int): int {
    (midHalfTicks + 1) / 2 - 1
  }

  lemma AnchorsHugTheMid(midHalfTicks: int)
    ensures 2 * (AskAnchor(midHalfTicks) - 1) <= midHalfTicks < 2 * AskAnchor(midHalfTicks)
    ensures 2 * BidAnchor(midHalfTicks) < midHalfTicks <= 2 * (BidAnchor(midHalfTicks) + 1)
  {
  }

  // ---------------------------------------------------------------- one side of the ladder

  datatype AnchorSide = Ask | Bid

  datatype Ladder = Ladder(anchor: int, width: int, rows: nat, side: AnchorSide)

  datatype Placement = Above | Below

  function NewLadder(anchorTick: int, width: int, rows: nat, side: AnchorSide): Ladder
    requires width > 0
  {
    Ladder(BucketLowEdge(anchorTick, width), width, rows, side)
  }

  /** Asks climb from the anchor, bids descend from it. */
  function ExactEdge(l: Ladder, offset: int): int {
    match l.side
    case Ask => l.anchor + offset * l.width
    case Bid => l.anchor - offset * l.width
  }

  function Edge(l: Ladder, offset: nat): int {
    SaturatingI64(ExactEdge(l, offset))
  }

  function LowestEdge(l: Ladder): int {
    match l.side
    case Ask => l.anchor
    case Bid => Edge(l, if l.rows == 0 then 0 else l.rows - 1)
  }

  function RowOf(l: Ladder, tickIndex: int): Option<nat>
    requires l.width > 0
  {
    var edge := BucketLowEdge(tickIndex, l.width);
    var distance := match l.side case Ask => edge - l.anchor case Bid => l.anchor - edge;
    if distance < 0 then None
    else
      DivMono(0, distance, l.width);
      var offset := distance / l.width;
      if offset <= U64_MAX && offset < l.rows then Some(offset) else None
  }

  function OffScreen(l: Ladder, tickIndex: int): Placement {
    if tickIndex < LowestEdge(l) then Below else Above
  }

  // ---------------------------------------------------------------- rows tile the window

  /** The ladder's own edges are on the grid and none of them saturates. */
  ghost predicate Sound(l: Ladder) {
    && l.width > 0 && OnGrid(l.anchor, l.width) && FitsI64(l.anchor)
    && (l.rows > 0 ==> FitsI64(ExactEdge(l, l.rows - 1))) && l.rows <= U64_MAX
  }

  /** The bucket a tick falls in starts within 64 bits. */
  ghost predicate Clear(l: Ladder, tickIndex: int)
    requires l.width > 0
  {
    FitsI64(tickIndex) && FitsI64(GridFloor(tickIndex, l.width))
  }

  /** A ladder whose first and last buckets start within 64 bits is sound. */
  lemma NewLadderIsSound(anchorTick: int, width: int, rows: nat, side: AnchorSide)
    requires width > 0 && rows <= U64_MAX && FitsI64(GridFloor(anchorTick, width))
    requires rows > 0 ==> FitsI64(ExactEdge(NewLadder(anchorTick, width, rows, side), rows - 1))
    ensures Sound(NewLadder(anchorTick, width, rows, side))
  {
    GridFloorBrackets(anchorTick, width);
  }

  lemma EdgesAreExact(l: Ladder, offset: nat)
    requires Sound(l) && offset < l.rows
    ensures Edge(l, offset) == ExactEdge(l, offset)
  {
    MulMono(0, offset, l.width);
    MulMono(offset, l.rows - 1, l.width);
  }

  /** A tick's bucket, counted in rows from the anchor's. */
  function RowDistance(l: Ladder, tickIndex: int): int
    requires l.width > 0
  {
    match l.side
    case Ask => tickIndex / l.width - l.anchor / l.width
    case Bid => l.anchor / l.width - tickIndex / l.width
  }

  lemma RowOfIsTheDistance(l: Ladder, tickIndex: int)
    requires Sound(l) && Clear(l, tickIndex)
    ensures var d := RowDistance(l, tickIndex);
            RowOf(l, tickIndex) == if 0 <= d < l.rows then Some(d) else None
  {
    var d := RowDistance(l, tickIndex);
    DivBounds(l.anchor, l.width);
    var edge := BucketLowEdge(tickIndex, l.width);
    var distance := match l.side case Ask => edge - l.anchor case Bid => l.anchor - edge;
    assert distance == d * l.width;
    if d >= 0 {
      MulMono(0, d, l.width);
      DivUnique(distance, l.width, d);
    } else {
      MulMono(d, -1, l.width);
    }
  }

  lemma DistanceIsTheRow(l: Ladder, tickIndex: int, k: int)
    requires Sound(l)
    ensures RowDistance(l, tickIndex) == k <==> ExactEdge(l, k) <= tickIndex < ExactEdge(l, k) + l.width
  {
    DivBounds(l.anchor, l.width);
    DivBounds(tickIndex, l.width);
    var bucket := match l.side case Ask => l.anchor / l.width + k case Bid => l.anchor / l.width - k;
    assert ExactEdge(l, k) == bucket * l.width;
    if ExactEdge(l, k) <= tickIndex < ExactEdge(l, k) + l.width {
      DivUnique(tickIndex, l.width, bucket);
    }
  }

  /** Looking a tick up finds the row whose edge is at or below it by less than a bucket, if there is one. */
  lemma RowOfInvertsEdge(l: Ladder, tickIndex: int, k: nat)
    requires Sound(l) && Clear(l, tickIndex)
    ensures RowOf(l, tickIndex) == Some(k) <==> k < l.rows && Edge(l, k) <= tickIndex < Edge(l, k) + l.width
  {
    RowOfIsTheDistance(l, tickIndex);
    if k < l.rows {
      EdgesAreExact(l, k);
      DistanceIsTheRow(l, tickIndex, k);
    }
    hide RowOf, RowDistance, ExactEdge;
  }

  lemma FloorOrder(x: int, width: int, bucket: int)
    requires width > 0
    ensures x / width >= bucket <==> x >= bucket * width
  {
    DivBounds(x, width);
    if x / width >= bucket {
      MulMono(bucket, x / width, width);
    } else {
      MulMono(x / width + 1, bucket, width);
    }
  }

  lemma DistanceOrder(l: Ladder, tickIndex: int, k: int)
    requires Sound(l)
    ensures l.side.Ask? ==> (RowDistance(l, tickIndex) >= k <==> tickIndex >= ExactEdge(l, k))
    ensures l.side.Bid? ==> (RowDistance(l, tickIndex) >= k <==> tickIndex < ExactEdge(l, k) + l.width)
  {
    var anchor := l.anchor / l.width;
    DivBounds(l.anchor, l.width);
    FloorOrder(tickIndex, l.width, anchor + k);
    FloorOrder(tickIndex, l.width, anchor - k + 1);
    assert (anchor + k) * l.width == l.anchor + k * l.width;
    assert (anchor - k + 1) * l.width == l.anchor - k * l.width + l.width;
  }

  /** The rows tile one stretch of ticks: a tick is in a row, or below all of them, or above all of them, and
      only one of the three. */
  lemma EveryTickHasOnePlace(l: Ladder, tickIndex: int)
    requires Sound(l) && Clear(l, tickIndex) && l.rows > 0
    ensures RowOf(l, tickIndex).Some? <==> LowestEdge(l) <= tickIndex < LowestEdge(l) + l.rows * l.width
    ensures RowOf(l, tickIndex).None? && OffScreen(l, tickIndex).Below? <==> tickIndex < LowestEdge(l)
    ensures RowOf(l, tickIndex).None? && OffScreen(l, tickIndex).Above? <==>
            tickIndex >= LowestEdge(l) + l.rows * l.width
  {
    RowOfIsTheDistance(l, tickIndex);
    DistanceOrder(l, tickIndex, 0);
    DistanceOrder(l, tickIndex, l.rows);
    EdgesAreExact(l, l.rows - 1);
    WindowSpan(l);
    hide RowOf, RowDistance, GridFloor, OnGrid;
  }

  lemma WindowSpan(l: Ladder)
    requires l.width > 0 && l.rows > 0
    ensures l.side.Bid? ==> ExactEdge(l, l.rows - 1) + l.rows * l.width == l.anchor + l.width
    ensures ExactEdge(l, l.rows) == if l.side.Ask? then l.anchor + l.rows * l.width
                                    else ExactEdge(l, l.rows - 1) - l.width
    ensures l.rows * l.width >= l.width
  {
  }

  /** With the best bid under the best ask, no ask falls below the ask rows and no bid above the bid rows: what
      is off screen is always the far end of the book. */
  lemma OnlyTheFarEndIsHidden(bestBid: int, bestAsk: int, width: int, rows: nat, tickIndex: int)
    requires bestBid < bestAsk && width > 0 && rows > 0
    requires var asks := NewLadder(AskAnchor(bestBid + bestAsk), width, rows, Ask);
             var bids := NewLadder(BidAnchor(bestBid + bestAsk), width, rows, Bid);
             Sound(asks) && Sound(bids) && Clear(asks, tickIndex)
    ensures var asks := NewLadder(AskAnchor(bestBid + bestAsk), width, rows, Ask);
            tickIndex >= bestAsk && RowOf(asks, tickIndex).None? ==> OffScreen(asks, tickIndex).Above?
    ensures var bids := NewLadder(BidAnchor(bestBid + bestAsk), width, rows, Bid);
            tickIndex <= bestBid && RowOf(bids, tickIndex).None? ==> OffScreen(bids, tickIndex).Below?
  {
    var mid := bestBid + bestAsk;
    var asks, bids := NewLadder(AskAnchor(mid), width, rows, Ask), NewLadder(BidAnchor(mid), width, rows, Bid);
    AnchorsHugTheMid(mid);
    GridFloorBrackets(AskAnchor(mid), width);
    GridFloorBrackets(BidAnchor(mid), width);
    EveryTickHasOnePlace(asks, tickIndex);
    EveryTickHasOnePlace(bids, tickIndex);
    EdgesAreExact(bids, rows - 1);
    WindowSpan(bids);
    hide RowOf, GridFloor, OnGrid, TruncDiv;
  }

  // ---------------------------------------------------------------- placing the public levels

  datatype Level = Level(price: int, qty: int)

  function AddQty(slot: Option<int>, qty: int): Option<int> {
    Some(if slot.None? then qty else SaturatingI64(slot.value + qty))
  }

  /** The row a level is shown in, if any. */
  function RowFor(l: Ladder, tick: int, level: Level): Option<nat>
    requires l.width > 0
  {
    match TickIndex(level.price, tick)
    case None => None
    case Some(tickIndex) => RowOf(l, tickIndex)
  }

  lemma RowForIsVisible(l: Ladder, tick: int, level: Level)
    requires l.width > 0 && RowFor(l, tick, level).Some?
    ensures RowFor(l, tick, level).value < l.rows
  {
  }

  function Placed(l: Ladder, tick: int, rows: seq<Option<int>>, levels: seq<Level>): (placed: seq<Option<int>>)
    requires l.width > 0 && |rows| == l.rows
    ensures |placed| == l.rows
  {
    if levels == [] then rows
    else
      var before := Placed(l, tick, rows, levels[..|levels| - 1]);
      var last := levels[|levels| - 1];
      match RowFor(l, tick, last)
      case None => before
      case Some(k) =>
        RowForIsVisible(l, tick, last);
        before[k := AddQty(before[k], last.qty)]
  }

  method PlacePublic(rows: array<Option<int>>, levels: seq<Level>, tick: int, l: Ladder)
    requires l.width > 0 && rows.Length == l.rows
    modifies rows
    ensures rows[..] == Placed(l, tick, old(rows[..]), levels)
  {
    hide RowOf;
    var i := 0;
    while i < |levels|
      invariant 0 <= i <= |levels| && rows[..] == Placed(l, tick, old(rows[..]), levels[..i])
    {
      var level := levels[i];
      assert levels[..i + 1][..i] == levels[..i];
      i := i + 1;
      var tickIndex := TickIndex(level.price, tick);
      if tickIndex.None? {
        continue;
      }
      var offset := RowOf(l, tickIndex.value);
      if offset.None? {
        continue;
      }
      RowForIsVisible(l, tick, level);
      rows[offset.value] := AddQty(rows[offset.value], level.qty);
    }
    assert levels[..i] == levels;
  }

  // ---------------------------------------------------------------- rows carry the book's depth

  function Blank(rows: nat): (blank: seq<Option<int>>)
    ensures |blank| == rows
  {
    seq(rows, i => None)
  }

  function OrZero(slot: Option<int>): int {
    if slot.None? then 0 else slot.value
  }

  /** The level is on the grid and its tick lies in `[from, from + span)`. */
  predicate Within(level: Level, tick: int, from: int, span: int) {
    TickIndex(level.price, tick).Some? && from <= TickIndex(level.price, tick).value < from + span
  }

  /** What the book holds in a stretch of ticks; nothing at all when no level is there. */
  function Depth(levels: seq<Level>, tick: int, from: int, span: int): Option<int> {
    if levels == [] then None
    else
      var before, last := Depth(levels[..|levels| - 1], tick, from, span), levels[|levels| - 1];
      if Within(last, tick, from, span) then Some(OrZero(before) + last.qty) else before
  }

  /** Quantities a level can carry, at ticks whose buckets do not saturate. */
  ghost predicate Plain(l: Ladder, tick: int, levels: seq<Level>)
    requires l.width > 0
  {
    && (forall i :: 0 <= i < |levels| ==> 0 <= levels[i].qty <= I64_MAX)
    && (forall i :: 0 <= i < |levels| && TickIndex(levels[i].price, tick).Some? ==>
          Clear(l, TickIndex(levels[i].price, tick).value))
  }

  lemma PlainPrefix(l: Ladder, tick: int, levels: seq<Level>)
    requires l.width > 0 && levels != [] && Plain(l, tick, levels)
    ensures Plain(l, tick, levels[..|levels| - 1])
  {
  }

  lemma {:induction false} DepthIsNotNegative(l: Ladder, levels: seq<Level>, tick: int, from: int, span: int)
    requires l.width > 0 && Plain(l, tick, levels)
    ensures OrZero(Depth(levels, tick, from, span)) >= 0
  {
    if levels != [] {
      assert levels[|levels| - 1].qty >= 0;
      PlainPrefix(l, tick, levels);
      hide Within, Plain;
      DepthIsNotNegative(l, levels[..|levels| - 1], tick, from, span);
    }
  }

  /** What a row can show of a depth. */
  function Shown(depth: Option<int>): Option<int> {
    if depth.None? then None else Some(Min(depth.value, I64_MAX))
  }

  function BucketDepth(l: Ladder, tick: int, levels: seq<Level>, k: nat): Option<int> {
    Depth(levels, tick, Edge(l, k), l.width)
  }

  /** Each row shows exactly the depth of its own bucket, up to the largest quantity there is: no level missed, none
      counted twice, and an empty bucket shows no quantity at all. */
  lemma {:induction false} RowsShowTheirBuckets(l: Ladder, tick: int, levels: seq<Level>, k: nat)
    requires Sound(l) && k < l.rows && Plain(l, tick, levels)
    ensures Placed(l, tick, Blank(l.rows), levels)[k] == Shown(BucketDepth(l, tick, levels, k))
  {
    if levels == [] {
      return;
    }
    var init, last := levels[..|levels| - 1], levels[|levels| - 1];
    assert 0 <= last.qty <= I64_MAX;
    PlainPrefix(l, tick, levels);
    DepthIsNotNegative(l, init, tick, Edge(l, k), l.width);
    if TickIndex(last.price, tick).Some? {
      RowOfInvertsEdge(l, TickIndex(last.price, tick).value, k);
    }
    hide RowOf, Edge, Plain, Sound, TickIndex;
    RowsShowTheirBuckets(l, tick, init, k);
  }

  // ---------------------------------------------------------------- and together the window's

  function SumRows(rows: seq<Option<int>>): int {
    if rows == [] then 0 else SumRows(rows[..|rows| - 1]) + OrZero(rows[|rows| - 1])
  }

  /** The depths of the first `n` buckets, added up. */
  function SumDepths(l: Ladder, tick: int, levels: seq<Level>, n: nat): int {
    if n == 0 then 0 else SumDepths(l, tick, levels, n - 1) + OrZero(BucketDepth(l, tick, levels, n - 1))
  }

  /** The row a level's bucket has among the first `n`, if it is one of them. */
  predicate InFirst(l: Ladder, tick: int, level: Level, n: nat)
    requires l.width > 0
  {
    RowFor(l, tick, level).Some? && RowFor(l, tick, level).value < n
  }

  lemma OneLevelOneBucket(l: Ladder, tick: int, levels: seq<Level>, k: nat)
    requires Sound(l) && levels != [] && Plain(l, tick, levels) && k < l.rows
    ensures var last := levels[|levels| - 1];
            OrZero(BucketDepth(l, tick, levels, k))
            == OrZero(BucketDepth(l, tick, levels[..|levels| - 1], k))
               + if RowFor(l, tick, last) == Some(k) then last.qty else 0
  {
    var last := levels[|levels| - 1];
    if TickIndex(last.price, tick).Some? {
      RowOfInvertsEdge(l, TickIndex(last.price, tick).value, k);
    }
    hide RowOf, Edge, Sound, TickIndex;
  }

  lemma {:induction false} OneLevelOnce(l: Ladder, tick: int, levels: seq<Level>, n: nat)
    requires Sound(l) && levels != [] && Plain(l, tick, levels) && n <= l.rows
    ensures var last := levels[|levels| - 1];
            SumDepths(l, tick, levels, n)
            == SumDepths(l, tick, levels[..|levels| - 1], n) + if InFirst(l, tick, last, n) then last.qty else 0
  {
    hide Sound, Plain, RowFor, BucketDepth;
    if n > 0 {
      OneLevelOnce(l, tick, levels, n - 1);
      OneLevelOneBucket(l, tick, levels, n - 1);
    }
  }

  lemma {:induction false} NoDepthAtFirst(l: Ladder, tick: int, n: nat)
    ensures SumDepths(l, tick, [], n) == 0
  {
    if n > 0 {
      NoDepthAtFirst(l, tick, n - 1);
    }
  }

  /** The buckets split the window: their depths add up to its own. */
  lemma {:induction false} BucketsSplitTheWindow(l: Ladder, tick: int, levels: seq<Level>)
    requires Sound(l) && l.rows > 0 && Plain(l, tick, levels)
    ensures SumDepths(l, tick, levels, l.rows) == OrZero(Depth(levels, tick, LowestEdge(l), l.rows * l.width))
  {
    if levels == [] {
      NoDepthAtFirst(l, tick, l.rows);
      return;
    }
    var init, last := levels[..|levels| - 1], levels[|levels| - 1];
    PlainPrefix(l, tick, levels);
    if TickIndex(last.price, tick).Some? {
      EveryTickHasOnePlace(l, TickIndex(last.price, tick).value);
    }
    if RowFor(l, tick, last).Some? {
      RowForIsVisible(l, tick, last);
    }
    hide RowOf, LowestEdge, Plain, Sound, TickIndex, SumDepths;
    BucketsSplitTheWindow(l, tick, init);
    OneLevelOnce(l, tick, levels, l.rows);
  }

  /** No bucket among the first `n` holds more than a row can show. */
  ghost predicate NoneSaturates(l: Ladder, tick: int, levels: seq<Level>, n: nat) {
    forall k :: 0 <= k < n ==> OrZero(BucketDepth(l, tick, levels, k)) <= I64_MAX
  }

  lemma {:induction false} RowsAddUpExactly(l: Ladder, tick: int, levels: seq<Level>, n: nat)
    requires Sound(l) && Plain(l, tick, levels) && n <= l.rows
    ensures var shown := SumRows(Placed(l, tick, Blank(l.rows), levels)[..n]);
            && shown <= SumDepths(l, tick, levels, n)
            && (shown == SumDepths(l, tick, levels, n) <==> NoneSaturates(l, tick, levels, n))
  {
    if n > 0 {
      hide Sound, Plain, Placed, Blank, BucketDepth;
      var rows := Placed(l, tick, Blank(l.rows), levels);
      RowsAddUpExactly(l, tick, levels, n - 1);
      RowsShowTheirBuckets(l, tick, levels, n - 1);
      assert rows[..n][..n - 1] == rows[..n - 1];
    }
  }

  /** Together the rows show every on-grid level of the window and nothing else, exactly when no bucket holds more
      than a row can show; otherwise they show less. */
  lemma RowsConserveTheWindow(l: Ladder, tick: int, levels: seq<Level>)
    requires Sound(l) && l.rows > 0 && Plain(l, tick, levels)
    ensures var shown := SumRows(Placed(l, tick, Blank(l.rows), levels));
            var depth := OrZero(Depth(levels, tick, LowestEdge(l), l.rows * l.width));
            && shown <= depth
            && (shown == depth <==> NoneSaturates(l, tick, levels, l.rows))
  {
    hide Plain, Placed, Blank, BucketDepth, Depth, LowestEdge, SumRows, SumDepths;
    var rows := Placed(l, tick, Blank(l.rows), levels);
    assert rows[..l.rows] == rows;
    RowsAddUpExactly(l, tick, levels, l.rows);
    BucketsSplitTheWindow(l, tick, levels);
  }
}
