/** One instrument's book (src/hot/book.rs): two sorted sides of fixed capacity, fed by chunks.

    Beside each side's levels the model keeps, as specification state, the book an unbounded side would
    hold (`reference`) and the best price trimmed since the last clear (`bestTrimmed`). */
module Book {
  import opened Common

  const BOOK_CHUNK_LEVELS: nat := 20

  datatype Level = Level(price: int, qty: int)

  datatype BookChunkKind = Delta | Snapshot

  /** `levels` is the chunk's fixed-width array; only its first `len` entries are active. */
  datatype RawChunk = RawChunk(
    kind: BookChunkKind, side: Side, levels: seq<Level>, len: nat, isLastChunk: bool,
    updateId: int, exchangeTs: Option<int>, receivedTs: int, queuedTs: int)

  predicate IsShaped(c: RawChunk) {
    |c.levels| == BOOK_CHUNK_LEVELS && c.len <= BOOK_CHUNK_LEVELS
  }

  type BookChunk = c: RawChunk | IsShaped(c)
    witness RawChunk(Delta, Buy, seq(BOOK_CHUNK_LEVELS, _ => Level(0, 0)), 0, false, 0, None, 0, 0)

  function ActiveLevels(chunk: BookChunk): seq<Level> {
    chunk.levels[..chunk.len]
  }

  datatype SortOrder = Descending | Ascending

  /** `a` is a strictly better price than `b` on a side stored in this order. */
  predicate Better(order: SortOrder, a: int, b: int) {
    match order case Descending => a > b case Ascending => a < b
  }

  ghost predicate StrictlySorted(order: SortOrder, levels: seq<Level>) {
    forall i, j :: 0 <= i < j < |levels| ==> Better(order, levels[i].price, levels[j].price)
  }

  predicate Holds(levels: seq<Level>, price: int) {
    exists level :: level in levels && level.price == price
  }

  datatype SearchResult = Found(index: nat) | Missing(index: nat)

  /** The contract of a binary search over a sorted side: the price's index, or where it would go. */
  function Search(order: SortOrder, levels: seq<Level>, price: int): (r: SearchResult)
    ensures r.Found? ==> r.index < |levels| && levels[r.index].price == price
    ensures r.Missing? ==> r.index <= |levels|
    ensures r.Missing? ==> forall i :: 0 <= i < r.index ==> Better(order, levels[i].price, price)
    ensures r.Missing? && StrictlySorted(order, levels) ==>
              forall i :: r.index <= i < |levels| ==> Better(order, price, levels[i].price)
  {
    if levels == [] then Missing(0)
    else if levels[0].price == price then Found(0)
    else if Better(order, price, levels[0].price) then Missing(0)
    else
      match Search(order, levels[1..], price)
      case Found(i) => Found(i + 1)
      case Missing(i) => Missing(i + 1)
  }

  datatype LevelState = Present(qty: int) | Absent | BeyondDepth

  function LevelStateOf(order: SortOrder, levels: seq<Level>, price: int): LevelState {
    match Search(order, levels, price)
    case Found(i) => Present(levels[i].qty)
    case Missing(i) => if i == |levels| then BeyondDepth else Absent
  }

  /** A price reads Present where a level has it, BeyondDepth past the deepest level held, and Absent between levels:
      the last two are told apart by whether anything deeper is held. */
  lemma LevelStatesAreToldApart(order: SortOrder, levels: seq<Level>, price: int)
    requires StrictlySorted(order, levels)
    ensures var state := LevelStateOf(order, levels, price);
            && (forall i :: 0 <= i < |levels| && levels[i].price == price ==> state == Present(levels[i].qty))
            && (state.Present? ==> exists i :: 0 <= i < |levels| && levels[i].price == price)
            && (state.BeyondDepth? <==> forall i :: 0 <= i < |levels| ==> Better(order, levels[i].price, price))
            && (state.Absent? <==>
                && (forall i :: 0 <= i < |levels| ==> levels[i].price != price)
                && exists i :: 0 <= i < |levels| && Better(order, price, levels[i].price))
  {
    hide Search;
    match Search(order, levels, price)
    case Found(i) => assert levels[i].price == price;
    case Missing(i) =>
      if i < |levels| {
        assert Better(order, price, levels[i].price);
      }
  }

  // ---------------------------------------------------------------- one side, as a value

  datatype SideView = SideView(
    levels: seq<Level>, isTrimWarned: bool, reference: map<int, int>, bestTrimmed: Option<int>)

  const EMPTY_SIDE := SideView([], false, map[], None)

  datatype ApplyOutcome = Applied | RemoveMissing | Trimmed(firstOfEpisode: bool)

  /** What a level means to a book without a capacity. */
  function ApplyToReference(reference: map<int, int>, level: Level): map<int, int> {
    if level.qty == 0 then reference - {level.price} else reference[level.price := level.qty]
  }

  function ApplyAllToReference(reference: map<int, int>, levels: seq<Level>): map<int, int>
    decreases |levels|
  {
    if levels == [] then reference
    else ApplyToReference(ApplyAllToReference(reference, levels[..|levels| - 1]), levels[|levels| - 1])
  }

  function InsertAt<T>(s: seq<T>, i: nat, x: T): seq<T>
    requires i <= |s|
  {
    s[..i] + [x] + s[i..]
  }

  function NoteTrim(order: SortOrder, best: Option<int>, dropped: int): Option<int> {
    if best.Some? && !Better(order, dropped, best.value) then best else Some(dropped)
  }

  function ApplyLevel(order: SortOrder, capacity: nat, v: SideView, level: Level): (SideView, ApplyOutcome) {
    var v' := v.(reference := ApplyToReference(v.reference, level));
    match Search(order, v.levels, level.price)
    case Found(i) =>
      if level.qty == 0 then (v'.(levels := RemoveAt(v.levels, i), isTrimWarned := false), Applied)
      else (v'.(levels := v.levels[i := Level(v.levels[i].price, level.qty)]), Applied)
    case Missing(i) =>
      if level.qty == 0 then (v', RemoveMissing)
      else if |v.levels| < capacity then (v'.(levels := InsertAt(v.levels, i, level)), Applied)
      else if i < capacity && capacity <= |v.levels| then
        (v'.(levels := InsertAt(RemoveAt(v.levels, capacity - 1), i, level),
             isTrimWarned := true,
             bestTrimmed := NoteTrim(order, v.bestTrimmed, v.levels[capacity - 1].price)),
         Trimmed(!v.isTrimWarned))
      else
        (v'.(isTrimWarned := true, bestTrimmed := NoteTrim(order, v.bestTrimmed, level.price)),
         Trimmed(!v.isTrimWarned))
  }

  function ApplyLevels(order: SortOrder, capacity: nat, v: SideView, levels: seq<Level>): SideView
    decreases |levels|
  {
    if levels == [] then v
    else ApplyLevel(order, capacity, ApplyLevels(order, capacity, v, levels[..|levels| - 1]), levels[|levels| - 1]).0
  }

  // ---------------------------------------------------------------- what a side promises

  /** No price at least as good as `price` has been trimmed since the last clear. */
  predicate Untrimmed(order: SortOrder, bestTrimmed: Option<int>, price: int) {
    bestTrimmed.None? || Better(order, price, bestTrimmed.value)
  }

  /** A held level is the reference's own; a reference price better than every trim is held. */
  ghost predicate Agrees(order: SortOrder, v: SideView) {
    && (forall level :: level in v.levels ==>
          level.qty != 0 && level.price in v.reference && v.reference[level.price] == level.qty)
    && (forall p :: p in v.reference && Untrimmed(order, v.bestTrimmed, p) ==> Holds(v.levels, p))
  }

  ghost predicate Faithful(order: SortOrder, capacity: nat, v: SideView) {
    && StrictlySorted(order, v.levels)
    && |v.levels| <= capacity
    && Agrees(order, v)
  }

  lemma Inserted(order: SortOrder, levels: seq<Level>, i: nat, level: Level)
    requires i <= |levels| && StrictlySorted(order, levels)
    requires forall k :: 0 <= k < i ==> Better(order, levels[k].price, level.price)
    requires forall k :: i <= k < |levels| ==> Better(order, level.price, levels[k].price)
    ensures StrictlySorted(order, InsertAt(levels, i, level))
    ensures forall x :: x in InsertAt(levels, i, level) <==> x == level || x in levels
  {
  }

  lemma Removed(order: SortOrder, levels: seq<Level>, i: nat)
    requires i < |levels| && StrictlySorted(order, levels)
    ensures StrictlySorted(order, RemoveAt(levels, i))
    ensures forall x :: x in RemoveAt(levels, i) <==> x in levels && x.price != levels[i].price
  {
  }

  lemma Replaced(order: SortOrder, levels: seq<Level>, i: nat, qty: int)
    requires i < |levels| && StrictlySorted(order, levels)
    ensures var after := levels[i := Level(levels[i].price, qty)];
            && StrictlySorted(order, after)
            && (forall x :: x in after <==>
                  x == Level(levels[i].price, qty) || (x in levels && x.price != levels[i].price))
  {
    var after := levels[i := Level(levels[i].price, qty)];
    forall x | x == Level(levels[i].price, qty) || (x in levels && x.price != levels[i].price)
      ensures x in after
    {
      if x == Level(levels[i].price, qty) {
        assert after[i] == x;
      } else {
        var k :| 0 <= k < |levels| && levels[k] == x;
        assert after[k] == x;
      }
    }
  }

  lemma RemovalAgrees(order: SortOrder, v: SideView, after: seq<Level>, price: int)
    requires Agrees(order, v)
    requires forall x :: x in after <==> x in v.levels && x.price != price
    ensures Agrees(order, v.(levels := after, reference := v.reference - {price}, isTrimWarned := false))
  {
  }

  lemma UpdateAgrees(order: SortOrder, v: SideView, after: seq<Level>, level: Level)
    requires Agrees(order, v) && level.qty != 0
    requires forall x :: x in after <==> x == level || (x in v.levels && x.price != level.price)
    ensures Agrees(order, v.(levels := after, reference := v.reference[level.price := level.qty]))
  {
  }

  lemma ApplyKeepsFaithful(order: SortOrder, capacity: nat, v: SideView, level: Level)
    requires capacity > 0 && Faithful(order, capacity, v)
    ensures Faithful(order, capacity, ApplyLevel(order, capacity, v, level).0)
  {
    hide Search;
    var found := Search(order, v.levels, level.price);
    if found.Found? && level.qty == 0 {
      Removed(order, v.levels, found.index);
      RemovalAgrees(order, v, RemoveAt(v.levels, found.index), level.price);
    } else if found.Found? {
      Replaced(order, v.levels, found.index, level.qty);
      UpdateAgrees(order, v, v.levels[found.index := Level(v.levels[found.index].price, level.qty)], level);
    } else if level.qty == 0 || (|v.levels| == capacity && found.index == capacity) {
      return;
    } else if |v.levels| < capacity {
      Inserted(order, v.levels, found.index, level);
      UpdateAgrees(order, v, InsertAt(v.levels, found.index, level), level);
    } else {
      TrimKeepsFaithful(order, capacity, v, found.index, level);
    }
    hide Agrees, StrictlySorted;
  }

  /** The worst level makes way for a better one. */
  lemma Evicted(order: SortOrder, levels: seq<Level>, i: nat, level: Level)
    requires i < |levels| && StrictlySorted(order, levels)
    requires forall k :: 0 <= k < i ==> Better(order, levels[k].price, level.price)
    requires forall k :: i <= k < |levels| ==> Better(order, level.price, levels[k].price)
    ensures StrictlySorted(order, InsertAt(RemoveAt(levels, |levels| - 1), i, level))
    ensures |InsertAt(RemoveAt(levels, |levels| - 1), i, level)| == |levels| && levels[|levels| - 1] in levels
    ensures forall x :: x in InsertAt(RemoveAt(levels, |levels| - 1), i, level) <==>
              x == level || (x in levels && x.price != levels[|levels| - 1].price)
  {
    Removed(order, levels, |levels| - 1);
    assert RemoveAt(levels, |levels| - 1) == levels[..|levels| - 1];
    Inserted(order, RemoveAt(levels, |levels| - 1), i, level);
  }

  lemma MissingIsNotHeld(order: SortOrder, levels: seq<Level>, price: int)
    requires StrictlySorted(order, levels) && Search(order, levels, price).Missing?
    ensures !Holds(levels, price)
  {
  }

  lemma EvictedAtItsPlace(order: SortOrder, levels: seq<Level>, i: nat, level: Level)
    requires i < |levels| && StrictlySorted(order, levels) && Search(order, levels, level.price) == Missing(i)
    ensures !Holds(levels, level.price) && levels[|levels| - 1] in levels
    ensures StrictlySorted(order, InsertAt(RemoveAt(levels, |levels| - 1), i, level))
    ensures |InsertAt(RemoveAt(levels, |levels| - 1), i, level)| == |levels|
    ensures forall x :: x in InsertAt(RemoveAt(levels, |levels| - 1), i, level) <==>
              x == level || (x in levels && x.price != levels[|levels| - 1].price)
  {
    hide Search, InsertAt, RemoveAt;
    MissingIsNotHeld(order, levels, level.price);
    Evicted(order, levels, i, level);
  }

  /** What a full side becomes when a better level pushes its worst one out. */
  function Trimming(order: SortOrder, v: SideView, i: nat, level: Level): SideView
    requires i < |v.levels|
  {
    var worst := |v.levels| - 1;
    SideView(InsertAt(RemoveAt(v.levels, worst), i, level), true, v.reference[level.price := level.qty],
             NoteTrim(order, v.bestTrimmed, v.levels[worst].price))
  }

  lemma TrimIsTrimming(order: SortOrder, capacity: nat, v: SideView, i: nat, level: Level)
    requires |v.levels| == capacity && i < capacity && level.qty != 0
    requires Search(order, v.levels, level.price) == Missing(i)
    ensures ApplyLevel(order, capacity, v, level).0 == Trimming(order, v, i, level)
  {
    hide Search, InsertAt, RemoveAt, NoteTrim;
  }

  lemma TrimmingAgrees(order: SortOrder, v: SideView, i: nat, level: Level)
    requires i < |v.levels| && StrictlySorted(order, v.levels) && Agrees(order, v) && level.qty != 0
    requires Search(order, v.levels, level.price) == Missing(i)
    ensures Agrees(order, Trimming(order, v, i, level))
  {
    hide Search, Agrees, StrictlySorted, InsertAt, RemoveAt, Holds, Better, NoteTrim;
    EvictedAtItsPlace(order, v.levels, i, level);
    TrimKeepsAgreement(order, v, Trimming(order, v, i, level).levels, v.levels[|v.levels| - 1], level);
  }

  lemma TrimKeepsFaithful(order: SortOrder, capacity: nat, v: SideView, i: nat, level: Level)
    requires |v.levels| == capacity && i < capacity && Faithful(order, capacity, v) && level.qty != 0
    requires Search(order, v.levels, level.price) == Missing(i)
    ensures Faithful(order, capacity, ApplyLevel(order, capacity, v, level).0)
  {
    hide Search, ApplyLevel, Agrees, StrictlySorted, InsertAt, RemoveAt, Holds;
    TrimIsTrimming(order, capacity, v, i, level);
    TrimmingAgrees(order, v, i, level);
    EvictedAtItsPlace(order, v.levels, i, level);
  }

  lemma TrimKeepsAgreement(order: SortOrder, v: SideView, after: seq<Level>, worst: Level, level: Level)
    requires Agrees(order, v) && level.qty != 0
    requires worst in v.levels && !Holds(v.levels, level.price)
    requires forall x :: x in after <==> x == level || (x in v.levels && x.price != worst.price)
    ensures Agrees(order, SideView(after, true, v.reference[level.price := level.qty],
                                   NoteTrim(order, v.bestTrimmed, worst.price)))
  {
  }

  lemma ReferenceFollows(order: SortOrder, capacity: nat, v: SideView, level: Level)
    ensures ApplyLevel(order, capacity, v, level).0.reference == ApplyToReference(v.reference, level)
  {
  }

  /** Any run of levels keeps a side faithful, and its reference is the unbounded fold of that run. */
  lemma {:induction false} RunKeepsFaithful(order: SortOrder, capacity: nat, v: SideView, levels: seq<Level>)
    requires capacity > 0 && Faithful(order, capacity, v)
    ensures Faithful(order, capacity, ApplyLevels(order, capacity, v, levels))
    ensures ApplyLevels(order, capacity, v, levels).reference == ApplyAllToReference(v.reference, levels)
    decreases |levels|
  {
    hide Faithful, ApplyLevel, ApplyToReference;
    if levels != [] {
      var front, last := levels[..|levels| - 1], levels[|levels| - 1];
      RunKeepsFaithful(order, capacity, v, front);
      ApplyKeepsFaithful(order, capacity, ApplyLevels(order, capacity, v, front), last);
      ReferenceFollows(order, capacity, ApplyLevels(order, capacity, v, front), last);
    }
  }

  /** What a reading is worth: Present is always the unbounded book's quantity, and at any price strictly
      better than everything trimmed, the reading is Present exactly when that book has a level there. */
  lemma LevelStateIsSound(order: SortOrder, capacity: nat, v: SideView, price: int)
    requires Faithful(order, capacity, v)
    ensures var reading := LevelStateOf(order, v.levels, price);
            && (reading.Present? ==> price in v.reference && reading.qty == v.reference[price] != 0)
            && (Untrimmed(order, v.bestTrimmed, price) ==> (reading.Present? <==> price in v.reference))
  {
  }

  lemma ApplyLevelsSnoc(order: SortOrder, capacity: nat, v: SideView, levels: seq<Level>, level: Level)
    ensures ApplyLevels(order, capacity, v, levels + [level])
         == ApplyLevel(order, capacity, ApplyLevels(order, capacity, v, levels), level).0
  {
  }

  lemma {:induction false} ApplyLevelsConcat(order: SortOrder, capacity: nat, v: SideView, a: seq<Level>, b: seq<Level>)
    ensures ApplyLevels(order, capacity, v, a + b)
         == ApplyLevels(order, capacity, ApplyLevels(order, capacity, v, a), b)
    decreases |b|
  {
    if b == [] {
      assert a + b == a;
    } else {
      assert (a + b)[..|a + b| - 1] == a + b[..|b| - 1];
      ApplyLevelsConcat(order, capacity, v, a, b[..|b| - 1]);
    }
  }

  // ---------------------------------------------------------------- where the boundary lies

  /** The side a history of levels leaves behind, starting from an empty one. */
  function After(order: SortOrder, capacity: nat, history: seq<Level>): SideView {
    ApplyLevels(order, capacity, EMPTY_SIDE, history)
  }

  /** Two histories that end in the same levels and have trimmed up to the same price. */
  ghost predicate SameSide(order: SortOrder, capacity: nat, a: seq<Level>, b: seq<Level>) {
    && After(order, capacity, a).levels == After(order, capacity, b).levels
    && After(order, capacity, a).bestTrimmed == After(order, capacity, b).bestTrimmed
  }

  /** Present exactly when the unbounded book has a level at this price. */
  ghost predicate Exact(order: SortOrder, capacity: nat, history: seq<Level>, price: int) {
    var v := After(order, capacity, history);
    LevelStateOf(order, v.levels, price).Present? <==> price in v.reference
  }

  ghost predicate NonZero(levels: seq<Level>) {
    forall level :: level in levels ==> level.qty != 0
  }

  /** Every level of a side is better than this price. */
  ghost predicate Tops(order: SortOrder, levels: seq<Level>, price: int) {
    forall level :: level in levels ==> Better(order, level.price, price)
  }

  lemma {:induction false} GoesLast(order: SortOrder, levels: seq<Level>, price: int)
    requires Tops(order, levels, price)
    ensures Search(order, levels, price) == Missing(|levels|)
  {
    if levels != [] {
      assert levels[0] in levels && forall level :: level in levels[1..] ==> level in levels;
      GoesLast(order, levels[1..], price);
    }
  }

  lemma GrowsAtTheEnd(order: SortOrder, capacity: nat, v: SideView, level: Level)
    requires StrictlySorted(order, v.levels) && Tops(order, v.levels, level.price)
    requires |v.levels| < capacity && level.qty != 0
    ensures ApplyLevel(order, capacity, v, level).0
            == v.(levels := v.levels + [level], reference := v.reference[level.price := level.qty])
  {
    GoesLast(order, v.levels, level.price);
    assert InsertAt(v.levels, |v.levels|, level) == v.levels + [level];
    hide Search;
  }

  /** Levels put on an empty side best first stay exactly as they are. */
  lemma {:induction false} FillsUp(order: SortOrder, capacity: nat, v: SideView, levels: seq<Level>, price: int)
    requires v.levels == [] && StrictlySorted(order, levels) && |levels| <= capacity && NonZero(levels)
    ensures var after := ApplyLevels(order, capacity, v, levels);
            && after.levels == levels && after.bestTrimmed == v.bestTrimmed
            && (!Holds(levels, price) ==> (price in after.reference <==> price in v.reference))
    decreases |levels|
  {
    hide ApplyLevel;
    if levels != [] {
      var front, last := levels[..|levels| - 1], levels[|levels| - 1];
      assert last in levels && forall level :: level in front ==> level in levels;
      FillsUp(order, capacity, v, front, price);
      GrowsAtTheEnd(order, capacity, ApplyLevels(order, capacity, v, front), last);
    }
  }

  lemma DropsTheLast(order: SortOrder, capacity: nat, v: SideView)
    requires v.levels != [] && StrictlySorted(order, v.levels)
    ensures var last := v.levels[|v.levels| - 1];
            ApplyLevel(order, capacity, v, Level(last.price, 0)).0
            == v.(levels := v.levels[..|v.levels| - 1], reference := v.reference - {last.price}, isTrimWarned := false)
  {
    var last := v.levels[|v.levels| - 1];
    assert last in v.levels;
    if Search(order, v.levels, last.price).Missing? {
      MissingIsNotHeld(order, v.levels, last.price);
    }
    assert RemoveAt(v.levels, |v.levels| - 1) == v.levels[..|v.levels| - 1];
    hide Search;
  }

  /** The levels of a side, to be removed worst first. */
  function Removals(levels: seq<Level>): seq<Level> {
    seq(|levels|, i requires 0 <= i < |levels| => Level(levels[|levels| - 1 - i].price, 0))
  }

  lemma {:induction false} EmptiesOut(order: SortOrder, capacity: nat, v: SideView, count: nat, price: int)
    requires StrictlySorted(order, v.levels) && count <= |v.levels| && !Holds(v.levels, price)
    ensures var after := ApplyLevels(order, capacity, v, Removals(v.levels)[..count]);
            && after.levels == v.levels[..|v.levels| - count] && after.bestTrimmed == v.bestTrimmed
            && (price in after.reference <==> price in v.reference)
    decreases count
  {
    hide ApplyLevel;
    if count > 0 {
      var before := ApplyLevels(order, capacity, v, Removals(v.levels)[..count - 1]);
      EmptiesOut(order, capacity, v, count - 1, price);
      RemovalAt(v.levels, count);
      hide Removals;
      DropsTheLast(order, capacity, before);
      assert v.levels[|v.levels| - count] in v.levels;
    }
  }

  lemma RemovalAt(levels: seq<Level>, count: nat)
    requires 0 < count <= |levels|
    ensures |Removals(levels)| == |levels|
    ensures Removals(levels)[..count][..count - 1] == Removals(levels)[..count - 1]
    ensures Removals(levels)[..count][count - 1] == Level(levels[|levels| - count].price, 0)
  {
  }

  /** A level behind a full side is trimmed, and seen only by the reference. */
  lemma TrimsBehind(order: SortOrder, capacity: nat, v: SideView, level: Level)
    requires |v.levels| == capacity && Tops(order, v.levels, level.price) && level.qty != 0
    ensures var after := ApplyLevel(order, capacity, v, level).0;
            && after.levels == v.levels && after.reference == v.reference[level.price := level.qty]
            && after.bestTrimmed == NoteTrim(order, v.bestTrimmed, level.price)
  {
    GoesLast(order, v.levels, level.price);
    hide Search;
  }

  /** `n` levels, best first, all better than `price`. */
  function Fillers(order: SortOrder, n: nat, price: int): seq<Level> {
    seq(n, i => Level(if order.Ascending? then price - n + i else price + n - i, 1))
  }

  /** What is trimmed behind a full side: first `trimmed`, then `price`, the latter perhaps withdrawn. */
  function Behind(trimmed: int, price: int, withdrawn: bool): seq<Level> {
    [] + [Level(trimmed, 1)] + [Level(price, 1)] + if withdrawn then [Level(price, 0)] else []
  }

  lemma Withdraws(order: SortOrder, capacity: nat, v: SideView, price: int)
    requires Tops(order, v.levels, price)
    ensures ApplyLevel(order, capacity, v, Level(price, 0)).0 == v.(reference := v.reference - {price})
  {
    GoesLast(order, v.levels, price);
    hide Search;
  }

  lemma BehindEnds(order: SortOrder, capacity: nat, v: SideView, trimmed: int, price: int, withdrawn: bool)
    requires |v.levels| == capacity && Tops(order, v.levels, trimmed) && Tops(order, v.levels, price)
    requires v.bestTrimmed == None && !Better(order, price, trimmed)
    ensures var after := ApplyLevels(order, capacity, v, Behind(trimmed, price, withdrawn));
            after.levels == v.levels && after.bestTrimmed == Some(trimmed) && (price in after.reference <==> !withdrawn)
  {
    hide ApplyLevel, Tops;
    var h1 := [] + [Level(trimmed, 1)];
    var h2 := h1 + [Level(price, 1)];
    ApplyLevelsSnoc(order, capacity, v, [], Level(trimmed, 1));
    TrimsBehind(order, capacity, v, Level(trimmed, 1));
    ApplyLevelsSnoc(order, capacity, v, h1, Level(price, 1));
    TrimsBehind(order, capacity, ApplyLevels(order, capacity, v, h1), Level(price, 1));
    ApplyLevelsSnoc(order, capacity, v, h2, Level(price, 0));
    Withdraws(order, capacity, ApplyLevels(order, capacity, v, h2), price);
    assert h2 + [] == h2;
  }

  /** A history that ends in these levels, having trimmed up to `trimmed` and left `price` to the reference, or
      withdrawn it. */
  function TrimHistory(order: SortOrder, capacity: nat, levels: seq<Level>, trimmed: int, price: int, withdrawn: bool):
    seq<Level>
  {
    var fillers := Fillers(order, capacity, trimmed);
    fillers + (Behind(trimmed, price, withdrawn) + (Removals(fillers) + levels))
  }

  lemma FillersAreBetter(order: SortOrder, n: nat, trimmed: int, price: int)
    requires !Better(order, price, trimmed)
    ensures var fillers := Fillers(order, n, trimmed);
            && StrictlySorted(order, fillers) && NonZero(fillers) && |fillers| == n
            && Tops(order, fillers, trimmed) && Tops(order, fillers, price) && !Holds(fillers, price)
  {
  }

  lemma TrimHistoryEnds(order: SortOrder, capacity: nat, levels: seq<Level>, trimmed: int, price: int, withdrawn: bool)
    requires StrictlySorted(order, levels) && |levels| <= capacity && NonZero(levels)
    requires !Holds(levels, price) && !Better(order, price, trimmed)
    ensures var v := After(order, capacity, TrimHistory(order, capacity, levels, trimmed, price, withdrawn));
            && v.levels == levels && v.bestTrimmed == Some(trimmed)
            && (price in v.reference <==> !withdrawn)
  {
    hide ApplyLevels, StrictlySorted, NonZero, Tops, Holds, Better;
    var fillers := Fillers(order, capacity, trimmed);
    var behind, emptied := Behind(trimmed, price, withdrawn), Removals(fillers);
    FillersAreBetter(order, capacity, trimmed, price);
    hide Fillers, Behind;
    FillsUp(order, capacity, EMPTY_SIDE, fillers, price);
    var full := ApplyLevels(order, capacity, EMPTY_SIDE, fillers);
    BehindEnds(order, capacity, full, trimmed, price, withdrawn);
    var trimming := ApplyLevels(order, capacity, full, behind);
    EmptiesOut(order, capacity, trimming, |fillers|, price);
    assert emptied[..|fillers|] == emptied;
    var empty := ApplyLevels(order, capacity, trimming, emptied);
    FillsUp(order, capacity, empty, levels, price);
    ApplyLevelsConcat(order, capacity, EMPTY_SIDE, fillers, behind + (emptied + levels));
    ApplyLevelsConcat(order, capacity, full, behind, emptied + levels);
    ApplyLevelsConcat(order, capacity, trimming, emptied, levels);
  }

  lemma HistoryIsFaithful(order: SortOrder, capacity: nat, history: seq<Level>)
    requires capacity > 0
    ensures Faithful(order, capacity, After(order, capacity, history))
    ensures After(order, capacity, history).reference == ApplyAllToReference(map[], history)
  {
    RunKeepsFaithful(order, capacity, EMPTY_SIDE, history);
  }

  /** Behind the boundary nothing is known: some history that looks the same ends with a level at this price in
      the unbounded book, and some other one without. */
  lemma BehindTheBoundary(order: SortOrder, capacity: nat, history: seq<Level>, price: int)
      returns (listed: seq<Level>, withdrawn: seq<Level>)
    requires capacity > 0
    requires !LevelStateOf(order, After(order, capacity, history).levels, price).Present?
    requires !Untrimmed(order, After(order, capacity, history).bestTrimmed, price)
    ensures SameSide(order, capacity, history, listed) && SameSide(order, capacity, history, withdrawn)
    ensures price in ApplyAllToReference(map[], listed) && price !in ApplyAllToReference(map[], withdrawn)
    ensures !Exact(order, capacity, listed, price)
  {
    hide ApplyLevels;
    HistoryIsFaithful(order, capacity, history);
    var v := After(order, capacity, history);
    MissingIsNotHeld(order, v.levels, price);
    listed := TrimHistory(order, capacity, v.levels, v.bestTrimmed.value, price, false);
    withdrawn := TrimHistory(order, capacity, v.levels, v.bestTrimmed.value, price, true);
    TrimHistoryEnds(order, capacity, v.levels, v.bestTrimmed.value, price, false);
    TrimHistoryEnds(order, capacity, v.levels, v.bestTrimmed.value, price, true);
    HistoryIsFaithful(order, capacity, listed);
    HistoryIsFaithful(order, capacity, withdrawn);
  }

  /** The trim boundary is sharp. Whatever history a side has, its reading at a price is exact in every history
      that ends in the same levels, trimmed up to the same price, if and only if the reading is Present or the
      price is strictly better than every trim. */
  lemma TrimBoundaryIsSharp(order: SortOrder, capacity: nat, history: seq<Level>, price: int)
    requires capacity > 0
    ensures var v := After(order, capacity, history);
            (forall other :: SameSide(order, capacity, history, other) ==> Exact(order, capacity, other, price))
            <==> LevelStateOf(order, v.levels, price).Present? || Untrimmed(order, v.bestTrimmed, price)
  {
    hide ApplyLevels, Faithful, Untrimmed;
    var v := After(order, capacity, history);
    if LevelStateOf(order, v.levels, price).Present? || Untrimmed(order, v.bestTrimmed, price) {
      forall other | SameSide(order, capacity, history, other)
        ensures Exact(order, capacity, other, price)
      {
        HistoryIsFaithful(order, capacity, other);
        LevelStateIsSound(order, capacity, After(order, capacity, other), price);
      }
    } else {
      var listed, withdrawn := BehindTheBoundary(order, capacity, history, price);
    }
  }

  const ONE_ASK := SideView([Level(1, 5)], false, map[1 := 5], None)
  const TRIMMED_ASK := SideView([Level(1, 5)], true, map[1 := 5, 3 := 5], Some(3))
  const LOST_ASK := SideView([], false, map[3 := 5], Some(3))
  const FAR_ASK := SideView([Level(4, 5)], false, map[3 := 5, 4 := 5], Some(3))

  lemma WitnessOpens()
    ensures ApplyLevel(Ascending, 1, EMPTY_SIDE, Level(1, 5)).0 == ONE_ASK
    ensures ApplyLevel(Ascending, 1, ONE_ASK, Level(3, 5)).0 == TRIMMED_ASK
  {
  }

  lemma WitnessCloses()
    ensures ApplyLevel(Ascending, 1, TRIMMED_ASK, Level(1, 0)).0 == LOST_ASK
    ensures ApplyLevel(Ascending, 1, LOST_ASK, Level(4, 5)).0 == FAR_ASK
  {
  }

  /** A concrete history in which a trimmed level reads Absent although the unbounded book holds it: an
      ask side of capacity one sees 1 and 3, loses 1, and gains 4. */
  lemma AbsentCanHideATrimmedLevel()
    ensures var history := [] + [Level(1, 5)] + [Level(3, 5)] + [Level(1, 0)] + [Level(4, 5)];
            var v := ApplyLevels(Ascending, 1, EMPTY_SIDE, history);
            LevelStateOf(Ascending, v.levels, 3) == Absent && 3 in v.reference
  {
    hide ApplyLevel;
    WitnessOpens();
    WitnessCloses();
    ApplyLevelsSnoc(Ascending, 1, EMPTY_SIDE, [], Level(1, 5));
    ApplyLevelsSnoc(Ascending, 1, EMPTY_SIDE, [] + [Level(1, 5)], Level(3, 5));
    ApplyLevelsSnoc(Ascending, 1, EMPTY_SIDE, [] + [Level(1, 5)] + [Level(3, 5)], Level(1, 0));
    ApplyLevelsSnoc(Ascending, 1, EMPTY_SIDE, [] + [Level(1, 5)] + [Level(3, 5)] + [Level(1, 0)], Level(4, 5));
  }

  // ---------------------------------------------------------------- the capped-map oracle

  ghost predicate Represents(levels: seq<Level>, m: map<int, int>) {
    && (forall x :: x in levels ==> x.price in m && m[x.price] == x.qty)
    && (forall p :: p in m ==> Holds(levels, p))
  }

  ghost predicate IsWorst(order: SortOrder, m: map<int, int>, worst: int) {
    worst in m && forall p :: p in m && p != worst ==> Better(order, p, worst)
  }

  /** The naive book the repository's reconstruction test compares against: a map that, once full, evicts
      its worst price unless the newcomer would be worse still. */
  ghost predicate CappedStep(order: SortOrder, capacity: nat, m: map<int, int>, level: Level, m': map<int, int>) {
    if level.qty == 0 then m' == m - {level.price}
    else if level.price in m || |m| < capacity then m' == m[level.price := level.qty]
    else exists worst ::
        && IsWorst(order, m, worst)
        && m' == if Better(order, worst, level.price) then m else (m - {worst})[level.price := level.qty]
  }

  lemma {:induction false} RepresentedSize(order: SortOrder, levels: seq<Level>, m: map<int, int>)
    requires StrictlySorted(order, levels) && Represents(levels, m)
    ensures |m| == |levels|
    decreases |levels|
  {
    if levels == [] {
      forall p
        ensures p !in m
      {
        assert p in m ==> Holds(levels, p);
      }
      assert m == map[];
    } else {
      var first, rest := levels[0], levels[1..];
      forall x | x in rest
        ensures x.price != first.price
      {
        var k :| 0 <= k < |rest| && rest[k] == x;
        assert levels[k + 1] == x;
      }
      forall p | p in m - {first.price}
        ensures Holds(rest, p)
      {
        var x :| x in levels && x.price == p;
        assert x in rest;
      }
      RepresentedSize(order, rest, m - {first.price});
      assert first in levels;
      assert m.Keys == (m - {first.price}).Keys + {first.price};
    }
  }

  /** One level applied to a side is one step of the capped map. */
  lemma RefinesCappedModel(order: SortOrder, capacity: nat, v: SideView, m: map<int, int>, level: Level)
      returns (m': map<int, int>)
    requires capacity > 0 && StrictlySorted(order, v.levels) && |v.levels| <= capacity
    requires Represents(v.levels, m)
    ensures CappedStep(order, capacity, m, level, m')
    ensures Represents(ApplyLevel(order, capacity, v, level).0.levels, m')
  {
    hide Search;
    RepresentedSize(order, v.levels, m);
    match Search(order, v.levels, level.price)
    case Found(i) => m' := RefinesHeld(order, capacity, v, m, level, i);
    case Missing(i) =>
      assert !Holds(v.levels, level.price);
      if level.qty == 0 {
        m' := m - {level.price};
        assert m' == m;
      } else if |v.levels| < capacity {
        m' := RefinesInsertion(order, capacity, v, m, level, i);
      } else {
        m' := RefinesEviction(order, capacity, v, m, level, i);
      }
  }

  lemma RefinesHeld(order: SortOrder, capacity: nat, v: SideView, m: map<int, int>, level: Level, i: nat)
      returns (m': map<int, int>)
    requires StrictlySorted(order, v.levels) && Represents(v.levels, m)
    requires Search(order, v.levels, level.price) == Found(i)
    ensures CappedStep(order, capacity, m, level, m')
    ensures Represents(ApplyLevel(order, capacity, v, level).0.levels, m')
  {
    hide Search;
    assert v.levels[i] in v.levels;
    if level.qty == 0 {
      Removed(order, v.levels, i);
      m' := m - {level.price};
      GoneAfter(v.levels, RemoveAt(v.levels, i), m, level.price);
    } else {
      Replaced(order, v.levels, i, level.qty);
      m' := m[level.price := level.qty];
      HeldAfter(v.levels, v.levels[i := Level(level.price, level.qty)], m, level);
    }
    hide Represents, StrictlySorted;
  }

  lemma RefinesInsertion(order: SortOrder, capacity: nat, v: SideView, m: map<int, int>, level: Level, i: nat)
      returns (m': map<int, int>)
    requires StrictlySorted(order, v.levels) && Represents(v.levels, m) && |m| == |v.levels| < capacity
    requires level.qty != 0 && !Holds(v.levels, level.price) && Search(order, v.levels, level.price) == Missing(i)
    ensures CappedStep(order, capacity, m, level, m')
    ensures Represents(ApplyLevel(order, capacity, v, level).0.levels, m')
  {
    hide Search;
    Inserted(order, v.levels, i, level);
    m' := m[level.price := level.qty];
    assert forall x :: x in v.levels ==> x.price != level.price;
    HeldAfter(v.levels, InsertAt(v.levels, i, level), m, level);
  }

  lemma GoneAfter(levels: seq<Level>, after: seq<Level>, m: map<int, int>, price: int)
    requires Represents(levels, m)
    requires forall x :: x in after <==> x in levels && x.price != price
    ensures Represents(after, m - {price})
  {
  }

  lemma HeldAfter(levels: seq<Level>, after: seq<Level>, m: map<int, int>, level: Level)
    requires Represents(levels, m)
    requires forall x :: x in after <==> x == level || (x in levels && x.price != level.price)
    ensures Represents(after, m[level.price := level.qty])
  {
  }

  lemma LastIsWorst(order: SortOrder, levels: seq<Level>, m: map<int, int>)
    requires levels != [] && StrictlySorted(order, levels) && Represents(levels, m)
    ensures IsWorst(order, m, levels[|levels| - 1].price)
  {
  }

  lemma RefinesEviction(order: SortOrder, capacity: nat, v: SideView, m: map<int, int>, level: Level, i: nat)
      returns (m': map<int, int>)
    requires capacity > 0 && StrictlySorted(order, v.levels) && |v.levels| == capacity == |m|
    requires Represents(v.levels, m) && level.qty != 0 && !Holds(v.levels, level.price)
    requires Search(order, v.levels, level.price) == Missing(i)
    ensures CappedStep(order, capacity, m, level, m')
    ensures Represents(ApplyLevel(order, capacity, v, level).0.levels, m')
  {
    hide Search, ApplyLevel, IsWorst, Represents, Holds, StrictlySorted, InsertAt, RemoveAt, NoteTrim;
    var worst := v.levels[capacity - 1];
    LastIsWorst(order, v.levels, m);
    NotHeldIsNotListed(v.levels, m, level.price);
    MissingSplits(order, v.levels, level.price, i);
    if i == capacity {
      DeepestIsIgnored(order, capacity, v, level);
      return m;
    }
    m' := (m - {worst.price})[level.price := level.qty];
    TrimIsTrimming(order, capacity, v, i, level);
    EvictionRepresents(order, v.levels, m, i, level);
  }

  lemma NotHeldIsNotListed(levels: seq<Level>, m: map<int, int>, price: int)
    requires Represents(levels, m) && !Holds(levels, price)
    ensures price !in m
  {
  }

  /** A missing price goes past the last level exactly when it is worse. */
  lemma MissingSplits(order: SortOrder, levels: seq<Level>, price: int, i: nat)
    requires levels != [] && StrictlySorted(order, levels) && Search(order, levels, price) == Missing(i)
    ensures i <= |levels|
    ensures i == |levels| <==> Better(order, levels[|levels| - 1].price, price)
  {
    hide Search;
  }

  lemma DeepestIsIgnored(order: SortOrder, capacity: nat, v: SideView, level: Level)
    requires |v.levels| == capacity && level.qty != 0 && Search(order, v.levels, level.price) == Missing(capacity)
    ensures ApplyLevel(order, capacity, v, level).0.levels == v.levels
  {
    hide Search;
  }

  lemma EvictionRepresents(order: SortOrder, levels: seq<Level>, m: map<int, int>, i: nat, level: Level)
    requires i < |levels| && StrictlySorted(order, levels) && Represents(levels, m) && !Holds(levels, level.price)
    requires Search(order, levels, level.price) == Missing(i)
    ensures Represents(InsertAt(RemoveAt(levels, |levels| - 1), i, level),
                       (m - {levels[|levels| - 1].price})[level.price := level.qty])
  {
    hide Search;
    Evicted(order, levels, i, level);
    hide Represents, StrictlySorted, InsertAt, RemoveAt, Holds;
    RepresentsAfterEviction(levels, InsertAt(RemoveAt(levels, |levels| - 1), i, level), m, levels[|levels| - 1], level);
  }

  lemma RepresentsAfterEviction(levels: seq<Level>, after: seq<Level>, m: map<int, int>, worst: Level, level: Level)
    requires Represents(levels, m) && !Holds(levels, level.price)
    requires forall x :: x in after <==> x == level || (x in levels && x.price != worst.price)
    ensures Represents(after, (m - {worst.price})[level.price := level.qty])
  {
  }

  // ---------------------------------------------------------------- the book, as a value

  datatype BookState = AwaitingSnapshot | Valid

  datatype SnapshotOutcome = Clean | ImplicitReset

  datatype BookView = BookView(bids: SideView, asks: SideView, state: BookState)

  const EMPTY_BOOK := BookView(EMPTY_SIDE, EMPTY_SIDE, AwaitingSnapshot)

  function ApplyChunkLevels(capacity: nat, b: BookView, chunk: BookChunk): BookView
  {
    match chunk.side
    case Buy => b.(bids := ApplyLevels(Descending, capacity, b.bids, ActiveLevels(chunk)))
    case Sell => b.(asks := ApplyLevels(Ascending, capacity, b.asks, ActiveLevels(chunk)))
  }

  function ApplySnapshotChunk(capacity: nat, b: BookView, chunk: BookChunk): BookView
  {
    var start := if b.state.Valid? then EMPTY_BOOK else b;
    var filled := ApplyChunkLevels(capacity, start, chunk);
    if chunk.isLastChunk then filled.(state := Valid) else filled
  }

  function ApplyDeltaChunk(capacity: nat, b: BookView, chunk: BookChunk): BookView
  {
    if b.state.AwaitingSnapshot? then b else ApplyChunkLevels(capacity, b, chunk)
  }

  function ApplyChunk(capacity: nat, b: BookView, chunk: BookChunk): BookView
  {
    if chunk.kind.Snapshot? then ApplySnapshotChunk(capacity, b, chunk) else ApplyDeltaChunk(capacity, b, chunk)
  }

  ghost predicate FaithfulBook(capacity: nat, b: BookView) {
    Faithful(Descending, capacity, b.bids) && Faithful(Ascending, capacity, b.asks)
  }

  /** Bids are held from the highest price down and asks from the lowest up, so the first of each is the top of the
      book and the last the one to give up. */
  lemma SidesAreBestFirst(capacity: nat, b: BookView, i: nat, j: nat)
    requires FaithfulBook(capacity, b) && i < j
    ensures j < |b.bids.levels| ==> b.bids.levels[i].price > b.bids.levels[j].price
    ensures j < |b.asks.levels| ==> b.asks.levels[i].price < b.asks.levels[j].price
  {
  }

  lemma LevelsKeepFaithful(capacity: nat, b: BookView, chunk: BookChunk)
    requires capacity > 0 && FaithfulBook(capacity, b)
    ensures FaithfulBook(capacity, ApplyChunkLevels(capacity, b, chunk))
  {
    if chunk.side.Buy? {
      RunKeepsFaithful(Descending, capacity, b.bids, ActiveLevels(chunk));
    } else {
      RunKeepsFaithful(Ascending, capacity, b.asks, ActiveLevels(chunk));
    }
  }

  lemma ChunkKeepsFaithful(capacity: nat, b: BookView, chunk: BookChunk)
    requires capacity > 0 && FaithfulBook(capacity, b)
    ensures FaithfulBook(capacity, ApplyChunk(capacity, b, chunk))
  {
    LevelsKeepFaithful(capacity, b, chunk);
    LevelsKeepFaithful(capacity, EMPTY_BOOK, chunk);
  }

  // ---------------------------------------------------------------- the book, as the program keeps it

  class BookSide {
    var levels: seq<Level>
    var isTrimWarned: bool
    const capacity: nat
    const order: SortOrder
    ghost var reference: map<int, int>
    ghost var bestTrimmed: Option<int>

    ghost function View(): SideView
      reads this
    {
      SideView(levels, isTrimWarned, reference, bestTrimmed)
    }

    constructor (capacity: nat, order: SortOrder)
      ensures View() == EMPTY_SIDE && this.capacity == capacity && this.order == order
    {
      this.levels, this.isTrimWarned := [], false;
      this.capacity, this.order := capacity, order;
      this.reference, this.bestTrimmed := map[], None;
    }

    method Clear()
      modifies this
      ensures View() == EMPTY_SIDE
    {
      levels, isTrimWarned := [], false;
      reference, bestTrimmed := map[], None;
    }

    function Best(): (best: Option<Level>)
      reads this
      ensures best.None? <==> levels == []
      ensures StrictlySorted(order, levels) && best.Some? ==>
                && best.value in levels
                && forall x :: x in levels ==> x == best.value || Better(order, best.value.price, x.price)
    {
      if levels == [] then None else Some(levels[0])
    }

    method Apply(level: Level) returns (outcome: ApplyOutcome)
      requires Faithful(order, capacity, View()) && capacity > 0
      modifies this
      ensures (View(), outcome) == ApplyLevel(order, capacity, old(View()), level)
      ensures Faithful(order, capacity, View())
    {
      ghost var before := View();
      match Search(order, levels, level.price) {
        case Found(index) =>
          if level.qty == 0 {
            levels, isTrimWarned := RemoveAt(levels, index), false;
          } else {
            levels := levels[index := levels[index].(qty := level.qty)];
          }
          outcome := Applied;
        case Missing(index) =>
          if level.qty == 0 {
            outcome := RemoveMissing;
          } else {
            outcome := InsertNew(index, level);
          }
      }
      reference := ApplyToReference(reference, level);
      ApplyKeepsFaithful(order, capacity, before, level);
    }

    method InsertNew(index: nat, level: Level) returns (outcome: ApplyOutcome)
      requires Search(order, levels, level.price) == Missing(index)
      requires |levels| <= capacity && level.qty != 0
      modifies this
      ensures var applied := ApplyLevel(order, capacity, old(View()), level);
              View() == applied.0.(reference := old(reference)) && outcome == applied.1
    {
      if |levels| < capacity {
        levels := InsertAt(levels, index, level);
        return Applied;
      }
      outcome := InsertAtCapacity(index, level);
    }

    /** At capacity the worst level makes room, unless the new one is deeper than everything held. */
    method InsertAtCapacity(index: nat, level: Level) returns (outcome: ApplyOutcome)
      requires Search(order, levels, level.price) == Missing(index)
      requires |levels| == capacity && level.qty != 0
      modifies this
      ensures var applied := ApplyLevel(order, capacity, old(View()), level);
              View() == applied.0.(reference := old(reference)) && outcome == applied.1
    {
      if index < capacity {
        bestTrimmed := NoteTrim(order, bestTrimmed, levels[capacity - 1].price);
        levels := RemoveAt(levels, capacity - 1);
        levels := InsertAt(levels, index, level);
      } else {
        bestTrimmed := NoteTrim(order, bestTrimmed, level.price);
      }
      outcome := Trimmed(!isTrimWarned);
      isTrimWarned := true;
    }

    method ApplyAll(incoming: seq<Level>)
      requires Faithful(order, capacity, View()) && capacity > 0
      modifies this
      ensures View() == ApplyLevels(order, capacity, old(View()), incoming)
      ensures Faithful(order, capacity, View())
    {
      for i := 0 to |incoming|
        invariant View() == ApplyLevels(order, capacity, old(View()), incoming[..i])
        invariant Faithful(order, capacity, View())
      {
        assert incoming[..i + 1][..i] == incoming[..i];
        var _ := Apply(incoming[i]);
      }
      assert incoming[..|incoming|] == incoming;
    }
  }

  /** Locked and crossed tops seen, and whether a crossed one has been warned about since the last sound one. */
  datatype TopCounts = TopCounts(locked: nat, crossed: nat, isCrossedWarned: bool)

  /** A top is crossed when the best bid is above the best ask and locked when they are one price. A crossed one opens
      an episode, a sound or one-sided one closes it, and a locked one does neither. */
  function Judged(t: TopCounts, bid: Option<Level>, ask: Option<Level>): (judged: TopCounts)
    ensures var isTwoSided := bid.Some? && ask.Some?;
            var isCrossed := isTwoSided && bid.value.price > ask.value.price;
            var isLocked := isTwoSided && bid.value.price == ask.value.price;
            && judged.crossed == t.crossed + (if isCrossed then 1 else 0)
            && judged.locked == t.locked + (if isLocked then 1 else 0)
            && judged.isCrossedWarned == (isCrossed || (isLocked && t.isCrossedWarned))
  {
    if bid.None? || ask.None? then t.(isCrossedWarned := false)
    else if bid.value.price > ask.value.price then t.(crossed := t.crossed + 1, isCrossedWarned := true)
    else if bid.value.price == ask.value.price then t.(locked := t.locked + 1)
    else t.(isCrossedWarned := false)
  }

  class Book {
    const bids: BookSide
    const asks: BookSide
    var state: BookState
    var lockedCount: nat
    var crossedCount: nat
    var isCrossedWarned: bool

    ghost function View(): BookView
      reads this, bids, asks
    {
      BookView(bids.View(), asks.View(), state)
    }

    function Tops(): TopCounts
      reads this
    {
      TopCounts(lockedCount, crossedCount, isCrossedWarned)
    }

    ghost predicate Shaped()
      reads this, bids, asks
    {
      && bids != asks
      && bids.order == Descending && asks.order == Ascending
      && bids.capacity == asks.capacity > 0
      && FaithfulBook(bids.capacity, View())
    }

    constructor (capacityPerSide: nat)
      requires capacityPerSide != 0
      ensures Shaped() && View() == EMPTY_BOOK && bids.capacity == capacityPerSide
      ensures fresh(bids) && fresh(asks)
    {
      bids := new BookSide(capacityPerSide, Descending);
      asks := new BookSide(capacityPerSide, Ascending);
      state, lockedCount, crossedCount, isCrossedWarned := AwaitingSnapshot, 0, 0, false;
    }

    method ApplyReset()
      requires Shaped()
      modifies this, bids, asks
      ensures Shaped() && View() == EMPTY_BOOK
      ensures Tops() == old(Tops()).(isCrossedWarned := false)
    {
      bids.Clear();
      asks.Clear();
      state, isCrossedWarned := AwaitingSnapshot, false;
    }

    method ApplyChunkSide(chunk: BookChunk)
      requires Shaped()
      modifies bids, asks
      ensures Shaped() && View() == ApplyChunkLevels(bids.capacity, old(View()), chunk)
    {
      match chunk.side {
        case Buy => bids.ApplyAll(ActiveLevels(chunk));
        case Sell => asks.ApplyAll(ActiveLevels(chunk));
      }
    }

    /** Only the last chunk is looked at for a crossed or locked top; a reset ends a crossed episode. */
    method ApplySnapshot(chunk: BookChunk) returns (outcome: SnapshotOutcome)
      requires Shaped()
      modifies this, bids, asks
      ensures Shaped() && View() == ApplySnapshotChunk(bids.capacity, old(View()), chunk)
      ensures outcome.ImplicitReset? <==> old(state).Valid?
      ensures Tops() == var before := if old(state).Valid? then old(Tops()).(isCrossedWarned := false) else old(Tops());
                        if chunk.isLastChunk then Judged(before, bids.Best(), asks.Best()) else before
    {
      outcome := Clean;
      if state == Valid {
        ApplyReset();
        outcome := ImplicitReset;
      }
      ApplyChunkSide(chunk);
      if chunk.isLastChunk {
        state := Valid;
        CheckCrossed();
      }
    }

    method ApplyDelta(chunk: BookChunk)
      requires Shaped()
      modifies this, bids, asks
      ensures Shaped() && View() == ApplyDeltaChunk(bids.capacity, old(View()), chunk)
      ensures Tops() == if old(state).Valid? && chunk.isLastChunk then Judged(old(Tops()), bids.Best(), asks.Best())
                        else old(Tops())
    {
      if state == AwaitingSnapshot {
        return;
      }
      ApplyChunkSide(chunk);
      if chunk.isLastChunk {
        CheckCrossed();
      }
    }

    /** Classifies the top of the book. A crossed top is warned about once per unbroken crossed episode; a
        locked one neither opens nor closes an episode. */
    method CheckCrossed()
      requires Shaped()
      modifies this`lockedCount, this`crossedCount, this`isCrossedWarned
      ensures Tops() == Judged(old(Tops()), bids.Best(), asks.Best())
    {
      var bid, ask := bids.Best(), asks.Best();
      if bid.None? || ask.None? {
        isCrossedWarned := false;
        return;
      }
      if bid.value.price > ask.value.price {
        crossedCount := crossedCount + 1;
        isCrossedWarned := true;
      } else if bid.value.price == ask.value.price {
        lockedCount := lockedCount + 1;
      } else {
        isCrossedWarned := false;
      }
    }
  }
}
