/** Where the bytes of an event or a history chunk are (src/link/feed). */
module FeedBytes {
  import opened Common
  import opened Wire
  import opened WireBytes
  import opened Feed

  /** A tagged choice is its tag, its shared fields, its own, and zeros to its width; a level is one byte, 255 for none;
      a listing is a count, a total and the cells. */
  ghost predicate ShapeAt(bytes: seq<U8>, at: nat, shape: Shape, content: Content)
    decreases shape
  {
    match shape
    case Field(kind) => content.Held? && FieldAt(bytes, at, kind, content.value)
    case OneOf(_, first, shared, cases) =>
      && content.Chosen? && first <= content.tag < first + |cases|
      && at < |bytes| && at + Span(shape) <= |bytes| && bytes[at] == content.tag
      && AllAt(bytes, at + 1, shared, content.shared)
      && AllAt(bytes, at + 1 + SpanAll(shared), cases[content.tag - first].own, content.own)
      && Zeros(bytes, at + ChoiceEnd(shape, content), at + Span(shape))
    case Rung =>
      content.Level? && at < |bytes| && bytes[at] == (if content.index.Some? then content.index.value else 255)
    case Listing(cells) =>
      && content.Listed? && at < |bytes| && bytes[at] == content.detailLen
      && NumberAt(bytes, at + 1, 2, content.totalWorking)
      && AllAt(bytes, at + 3, cells, content.cells)
  }

  ghost predicate AllAt(bytes: seq<U8>, at: nat, shapes: seq<Shape>, contents: seq<Content>)
    decreases shapes
  {
    shapes != [] ==>
      && contents != [] && ShapeAt(bytes, at, shapes[0], contents[0])
      && AllAt(bytes, at + Span(shapes[0]), shapes[1..], contents[1..])
  }

  ghost predicate Zeros(bytes: seq<U8>, from: nat, until: nat) {
    until <= |bytes| && forall i :: from <= i < until ==> bytes[i] == 0
  }

  /** The same bytes found `shift` further on. */
  ghost predicate Moved(bytes: seq<U8>, all: seq<U8>, shift: nat) {
    shift + |bytes| <= |all| && forall i :: 0 <= i < |bytes| ==> all[shift + i] == bytes[i]
  }

  lemma FieldMovesBy(bytes: seq<U8>, at: nat, kind: Kind, value: Value, all: seq<U8>, shift: nat)
    requires Moved(bytes, all, shift) && FieldAt(bytes, at, kind, value)
    ensures FieldAt(all, shift + at, kind, value)
  {
    assert all == all[..shift] + bytes + all[shift + |bytes|..];
    FieldMoves(bytes, at, kind, value, all[..shift], all[shift + |bytes|..]);
    hide FieldAt;
  }

  lemma ZerosMove(bytes: seq<U8>, from: nat, until: nat, all: seq<U8>, shift: nat)
    requires Moved(bytes, all, shift) && Zeros(bytes, from, until)
    ensures Zeros(all, shift + from, shift + until)
  {
    forall i | shift + from <= i < shift + until
      ensures all[i] == 0
    {
      assert all[shift + (i - shift)] == bytes[i - shift];
    }
  }

  lemma ByteMoves(bytes: seq<U8>, at: nat, all: seq<U8>, shift: nat)
    requires Moved(bytes, all, shift) && at < |bytes|
    ensures shift + at < |all| && all[shift + at] == bytes[at]
  {
  }

  lemma NumberMoves(bytes: seq<U8>, at: nat, width: nat, value: int, all: seq<U8>, shift: nat)
    requires Moved(bytes, all, shift) && NumberAt(bytes, at, width, value)
    ensures NumberAt(all, shift + at, width, value)
  {
    FieldMovesBy(bytes, at, Unsigned(width), Number(value), all, shift);
  }

  lemma {:induction false} ShapeMoves(bytes: seq<U8>, at: nat, shape: Shape, content: Content,
                                      all: seq<U8>, shift: nat)
    requires Moved(bytes, all, shift) && ShapeAt(bytes, at, shape, content)
    ensures ShapeAt(all, shift + at, shape, content)
    decreases shape
  {
    hide AllAt, FieldAt, NumberAt, Span, SpanAll, ChoiceEnd, Zeros, Moved;
    match shape
    case Field(kind) => FieldMovesBy(bytes, at, kind, content.value, all, shift);
    case OneOf(_, first, shared, cases) =>
      ByteMoves(bytes, at, all, shift);
      EndMoves(bytes, at + Span(shape), all, shift);
      AllMove(bytes, at + 1, shared, content.shared, all, shift);
      AllMove(bytes, at + 1 + SpanAll(shared), cases[content.tag - first].own, content.own, all, shift);
      ZerosMove(bytes, at + ChoiceEnd(shape, content), at + Span(shape), all, shift);
    case Rung => ByteMoves(bytes, at, all, shift);
    case Listing(cells) =>
      ByteMoves(bytes, at, all, shift);
      NumberMoves(bytes, at + 1, 2, content.totalWorking, all, shift);
      AllMove(bytes, at + 3, cells, content.cells, all, shift);
  }

  lemma EndMoves(bytes: seq<U8>, end: nat, all: seq<U8>, shift: nat)
    requires Moved(bytes, all, shift) && end <= |bytes|
    ensures shift + end <= |all|
  {
  }

  lemma {:induction false} AllMove(bytes: seq<U8>, at: nat, shapes: seq<Shape>, contents: seq<Content>,
                                   all: seq<U8>, shift: nat)
    requires Moved(bytes, all, shift) && AllAt(bytes, at, shapes, contents)
    ensures AllAt(all, shift + at, shapes, contents)
    decreases shapes
  {
    hide ShapeAt, Span;
    if shapes != [] {
      ShapeMoves(bytes, at, shapes[0], contents[0], all, shift);
      AllMove(bytes, at + Span(shapes[0]), shapes[1..], contents[1..], all, shift);
    }
  }

  /** A shape written is laid out so. */
  lemma {:induction false} ShapeIsLaidOut(shape: Shape, content: Content)
    requires Holds(shape, content)
    ensures ShapeAt(WriteShape(shape, content), 0, shape, content)
    decreases shape, 1
  {
    hide AllAt, FieldAt, PlaceOf, SpanAll, Widest, WriteAll, HoldAll, DetailFault, LittleEndian;
    match shape
    case Field(kind) => FieldIsLaidOut(kind, content.value);
    case OneOf(_, _, _, _) => ChoiceIsLaidOut(shape, content);
    case Rung =>
    case Listing(_) => ListingIsLaidOut(shape, content);
  }

  lemma PartsMove(tag: U8, head: seq<U8>, tail: seq<U8>, padding: seq<U8>, bytes: seq<U8>)
    requires bytes == [tag] + head + tail + padding
    ensures bytes[0] == tag && Moved(head, bytes, 1) && Moved(tail, bytes, 1 + |head|)
    ensures Moved(padding, bytes, 1 + |head| + |tail|)
  {
  }

  lemma {:induction false} ChoiceIsLaidOut(shape: Shape, content: Content)
    requires shape.OneOf? && Holds(shape, content)
    ensures ShapeAt(WriteShape(shape, content), 0, shape, content)
    decreases shape, 0
  {
    hide AllAt, SpanAll, Widest, WriteAll, HoldAll, DetailFault, Moved, Zeros, Padding;
    var own := shape.cases[content.tag - shape.first].own;
    var bytes := WriteShape(shape, content);
    var head, tail := WriteAll(shape.shared, content.shared), WriteAll(own, content.own);
    WidestCovers(shape.cases, content.tag - shape.first);
    var padding := Padding(Widest(shape.cases) - SpanAll(own));
    PaddingIsZeros(|padding|);
    PartsMove(content.tag, head, tail, padding, bytes);
    AllAreLaidOut(shape.shared, content.shared);
    AllMove(head, 0, shape.shared, content.shared, bytes, 1);
    AllAreLaidOut(own, content.own);
    AllMove(tail, 0, own, content.own, bytes, 1 + |head|);
    ZerosMove(padding, 0, |padding|, bytes, 1 + |head| + |tail|);
  }

  lemma PaddingIsZeros(n: nat)
    ensures Zeros(Padding(n), 0, n)
  {
  }

  lemma {:induction false} ListingIsLaidOut(shape: Shape, content: Content)
    requires shape.Listing? && Holds(shape, content)
    ensures ShapeAt(WriteShape(shape, content), 0, shape, content)
    decreases shape, 0
  {
    hide AllAt, SpanAll, WriteAll, HoldAll, DetailFault, PlaceOf, LittleEndian;
    var bytes, count, cells := WriteShape(shape, content), LittleEndian(2, content.totalWorking),
                               WriteAll(shape.cells, content.cells);
    assert bytes == [content.detailLen] + count + cells;
    UnsignedBytes(2, content.totalWorking);
    assert Moved(count, bytes, 1) && Moved(cells, bytes, 3);
    NumberMoves(count, 0, 2, content.totalWorking, bytes, 1);
    AllAreLaidOut(shape.cells, content.cells);
    AllMove(cells, 0, shape.cells, content.cells, bytes, 3);
  }

  lemma {:induction false} AllAreLaidOut(shapes: seq<Shape>, contents: seq<Content>)
    requires HoldAll(shapes, contents)
    ensures AllAt(WriteAll(shapes, contents), 0, shapes, contents)
    decreases shapes, 0
  {
    hide ShapeAt, WriteShape, Span, Holds;
    if shapes != [] {
      var bytes, first, rest := WriteAll(shapes, contents), WriteShape(shapes[0], contents[0]),
                                WriteAll(shapes[1..], contents[1..]);
      assert bytes == first + rest && Moved(first, bytes, 0) && Moved(rest, bytes, |first|);
      ShapeIsLaidOut(shapes[0], contents[0]);
      ShapeMoves(first, 0, shapes[0], contents[0], bytes, 0);
      AllAreLaidOut(shapes[1..], contents[1..]);
      AllMove(rest, 0, shapes[1..], contents[1..], bytes, |first|);
    }
  }

  // ---------------------------------------------------------------- the orders an order snapshot lists

  /** The bytes that hold the client id of the `i`th listed order, and the one that holds its state. */
  function ClientBytes(bytes: seq<U8>, i: nat): seq<U8>
    requires 3 + 34 * i + 8 <= |bytes|
  {
    bytes[3 + 34 * i..3 + 34 * i + 8]
  }

  function StateByte(bytes: seq<U8>, i: nat): U8
    requires 3 + 34 * i + 9 < |bytes|
  {
    bytes[3 + 34 * i + 9]
  }

  lemma ReadAllStep(shapes: seq<Shape>, bytes: seq<U8>, first: seq<U8>, rest: seq<U8>)
    requires shapes != [] && |first| == Span(shapes[0]) && |rest| == SpanAll(shapes[1..]) && bytes == first + rest
    ensures |bytes| == SpanAll(shapes)
    ensures var front, back := ReadShape(shapes[0], first), ReadAll(shapes[1..], rest);
            && (ReadAll(shapes, bytes).Ok? <==> front.Ok? && back.Ok?)
            && (front.Ok? && back.Ok? ==> ReadAll(shapes, bytes).value == [front.value] + back.value)
  {
    hide ReadShape, Span;
    assert bytes[..|first|] == first && bytes[|first|..] == rest;
  }

  lemma ReadNothing()
    ensures SpanAll([]) == 0 && ReadAll([], []) == Ok([])
  {
  }

  lemma SpanOfFirst(shapes: seq<Shape>)
    requires shapes != []
    ensures SpanAll(shapes) == Span(shapes[0]) + SpanAll(shapes[1..])
  {
    hide Span;
  }

  lemma {:induction false} ReadAllParts(a: seq<Shape>, b: seq<Shape>, front: seq<U8>, back: seq<U8>)
    requires |front| == SpanAll(a) && |back| == SpanAll(b)
    requires SpanAll(a + b) == |front + back| && ReadAll(a + b, front + back).Ok?
    ensures ReadAll(a, front).Ok? && ReadAll(b, back).Ok?
    ensures ReadAll(a + b, front + back).value == ReadAll(a, front).value + ReadAll(b, back).value
    decreases a
  {
    hide ReadShape, Span, SpanAll, ReadAll;
    if a == [] {
      ReadNothing();
      assert a + b == b && front + back == back;
    } else {
      SpanOfFirst(a);
      var first, rest := front[..Span(a[0])], front[Span(a[0])..];
      assert (a + b)[1..] == a[1..] + b;
      assert front == first + rest && front + back == first + (rest + back);
      SpanConcat(a[1..], b);
      ReadAllStep(a + b, front + back, first, rest + back);
      ReadAllParts(a[1..], b, rest, back);
      ReadAllStep(a, front, first, rest);
    }
  }

  lemma CellSpan()
    ensures SpanAll(ORDER_CELL) == 34
    ensures Span(ORDER_CELL[0]) == 8 && Span(ORDER_CELL[1]) == 1 && Span(ORDER_CELL[2]) == 1
  {
    FieldSpans();
    hide Span, SpanAll;
    SpanOf(ORDER_CELL);
  }

  /** Reading a run puts each shape's content where the shape is. */
  lemma {:induction false} ReadAllHas(shapes: seq<Shape>, bytes: seq<U8>, k: nat, at: nat)
    requires |bytes| == SpanAll(shapes) && ReadAll(shapes, bytes).Ok? && k < |shapes| && at == SpanAll(shapes[..k])
    ensures |ReadAll(shapes, bytes).value| == |shapes| && at + Span(shapes[k]) <= |bytes|
    ensures ReadShape(shapes[k], bytes[at..at + Span(shapes[k])]) == Ok(ReadAll(shapes, bytes).value[k])
    decreases k
  {
    hide ReadShape, Span;
    var rest := bytes[Span(shapes[0])..];
    ReadAllLength(shapes, bytes);
    if k == 0 {
      assert bytes[0..Span(shapes[0])] == bytes[..Span(shapes[0])];
    } else {
      assert shapes[..k][0] == shapes[0] && shapes[..k][1..] == shapes[1..][..k - 1];
      ReadAllHas(shapes[1..], rest, k - 1, at - Span(shapes[0]));
      assert rest[at - Span(shapes[0])..at - Span(shapes[0]) + Span(shapes[k])] == bytes[at..at + Span(shapes[k])];
    }
  }

  lemma {:induction false} ReadAllLength(shapes: seq<Shape>, bytes: seq<U8>)
    requires |bytes| == SpanAll(shapes) && ReadAll(shapes, bytes).Ok?
    ensures |ReadAll(shapes, bytes).value| == |shapes|
    decreases shapes
  {
    hide ReadShape, Span;
    if shapes != [] {
      ReadAllLength(shapes[1..], bytes[Span(shapes[0])..]);
    }
  }

  lemma EnumerationIsAChoice(name: Label, first: nat, variants: nat)
    ensures Enumerated(name, first, variants).OneOf?
  {
  }

  lemma WordIsRead(bytes: seq<U8>)
    requires |bytes| == 8 == Span(Word64)
    ensures ReadShape(Word64, bytes) == Ok(Held(Number(FromLittleEndian(bytes))))
  {
    hide FromLittleEndian;
  }

  lemma CellReads(bytes: seq<U8>)
    requires |bytes| == 34 == SpanAll(ORDER_CELL) && ReadAll(ORDER_CELL, bytes).Ok?
    ensures var cell := ReadAll(ORDER_CELL, bytes).value;
            && |cell| == 6 && cell[0] == Held(Number(FromLittleEndian(bytes[..8])))
            && cell[2].Chosen? && cell[2].tag == bytes[9]
  {
    hide ReadShape, Span, SpanAll, ReadAll, FromLittleEndian, Enumerated;
    CellSpan();
    assert ORDER_CELL[..0] == [] && ORDER_CELL[..2] == [Word64, Rung];
    SpanOf([]);
    SpanOf([Word64, Rung]);
    ReadAllHas(ORDER_CELL, bytes, 0, 0);
    assert bytes[0..8] == bytes[..8];
    WordIsRead(bytes[..8]);
    ReadAllHas(ORDER_CELL, bytes, 2, 9);
    EnumerationIsAChoice(OrderStateLabel, 1, 11);
    ChosenFromItsTag(ORDER_CELL[2], bytes[9..10]);
  }

  /** Where each listed order's client id and state are read from. */
  lemma {:induction false} OrdersAreRead(n: nat, bytes: seq<U8>, i: nat)
    requires i < n && |bytes| == 34 * n && SpanAll(Times(ORDER_CELL, n)) == 34 * n
    requires ReadAll(Times(ORDER_CELL, n), bytes).Ok?
    ensures var cells := ReadAll(Times(ORDER_CELL, n), bytes).value;
            && ClientAt(cells, i) == FromLittleEndian(bytes[34 * i..34 * i + 8])
            && StateAt(cells, i) == bytes[34 * i + 9]
    decreases n
  {
    hide ReadShape, Span, SpanAll, ReadAll, FromLittleEndian;
    CellSpan();
    SpanTimes(ORDER_CELL, n - 1);
    assert bytes == bytes[..34] + bytes[34..];
    ReadAllParts(ORDER_CELL, Times(ORDER_CELL, n - 1), bytes[..34], bytes[34..]);
    CellReads(bytes[..34]);
    var cell := ReadAll(ORDER_CELL, bytes[..34]).value;
    if i == 0 {
      assert bytes[..34][..8] == bytes[0..8];
    } else {
      var rest := bytes[34..];
      OrdersAreRead(n - 1, rest, i - 1);
      assert rest[34 * (i - 1)..34 * (i - 1) + 8] == bytes[34 * i..34 * i + 8];
      CellsMove(cell, ReadAll(Times(ORDER_CELL, n - 1), rest).value, i);
    }
  }

  lemma CellsMove(cell: seq<Content>, cells: seq<Content>, i: nat)
    requires |cell| == 6 && i > 0
    ensures ClientAt(cell + cells, i) == ClientAt(cells, i - 1) && StateAt(cell + cells, i) == StateAt(cells, i - 1)
  {
  }

  lemma ListingsAreTakenExactly(shape: Shape, bytes: seq<U8>)
    requires shape.Listing? && |bytes| == Span(shape) == 3 + SpanAll(shape.cells)
    ensures var orders := ReadAll(shape.cells, bytes[3..]);
            ReadShape(shape, bytes).Ok? <==>
              && CountsOk(bytes[0], FromLittleEndian(bytes[1..3]))
              && orders.Ok? && DetailFault(bytes[0], orders.value).None?
  {
    hide SpanAll, ReadAll, FromLittleEndian, DetailFault, CountsOk;
  }

  /** An order snapshot's orders are taken exactly when their fields read, at most eight are listed out of a total of at
      most 288, every listed one is in a working state and no two of them share a client id. */
  lemma OrderSnapshotsAreTakenExactly(bytes: seq<U8>)
    requires |bytes| == 275 == Span(ORDERS)
    ensures var n, total := bytes[0], FromLittleEndian(bytes[1..3]);
            ReadShape(ORDERS, bytes).Ok? <==>
              && n <= 8 && n <= total <= 288 && ReadAll(ORDERS.cells, bytes[3..]).Ok?
              && (forall i: nat :: i < n ==> 2 <= StateByte(bytes, i) <= 6)
              && (forall i: nat, j: nat :: j < i < n ==>
                    FromLittleEndian(ClientBytes(bytes, j)) != FromLittleEndian(ClientBytes(bytes, i)))
  {
    hide Span, SpanAll, ReadAll, ReadShape, Times, FromLittleEndian, DetailFault, ClientAt, StateAt;
    CellSpan();
    SpanTimes(ORDER_CELL, UI_ORDER_SNAPSHOT_CAPACITY);
    var n: nat, orders := bytes[0], ReadAll(ORDERS.cells, bytes[3..]);
    ListingsAreTakenExactly(ORDERS, bytes);
    if n <= 8 && orders.Ok? {
      forall i: nat | i < n
        ensures ClientAt(orders.value, i) == FromLittleEndian(ClientBytes(bytes, i))
        ensures StateAt(orders.value, i) == StateByte(bytes, i)
      {
        OrdersAreRead(8, bytes[3..], i);
        assert bytes[3..][34 * i..34 * i + 8] == ClientBytes(bytes, i);
      }
      DetailIsSound(n, orders.value);
    }
  }
}
