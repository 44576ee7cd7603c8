/** The feed's bodies (src/link/feed): events and history chunks. A shape is a tree of fields: a tagged choice has
    the fields every case shares, then those of its own case, padded with zeros to the width of the widest. */
module Feed {
  import opened Common
  import opened Wire

  const UI_QUOTE_LEVELS: nat := 8
  const UI_ORDER_SNAPSHOT_CAPACITY: nat := 8
  const UI_ORDER_SNAPSHOT_MAX_TOTAL: nat := 288
  const UI_HISTORY_SAMPLES: nat := 42
  const NO_QUOTE_LEVEL: U8 := 255

  datatype Shape =
    | Field(kind: Kind)
    | OneOf(field: Label, first: nat, shared: seq<Shape>, cases: seq<Case>)
    | Rung
    | Listing(cells: seq<Shape>)

  datatype Case = Case(own: seq<Shape>)

  datatype Content =
    | Held(value: Value)
    | Chosen(tag: int, shared: seq<Content>, own: seq<Content>)
    | Level(index: Option<int>)
    | Listed(detailLen: int, totalWorking: int, cells: seq<Content>)

  // ---------------------------------------------------------------- widths

  function Span(shape: Shape): nat
    decreases shape
  {
    match shape
    case Field(kind) => Width(kind)
    case OneOf(_, _, shared, cases) => 1 + SpanAll(shared) + Widest(cases)
    case Rung => 1
    case Listing(cells) => 3 + SpanAll(cells)
  }

  function SpanAll(shapes: seq<Shape>): nat
    decreases shapes
  {
    if shapes == [] then 0 else Span(shapes[0]) + SpanAll(shapes[1..])
  }

  function Widest(cases: seq<Case>): nat
    decreases cases
  {
    if cases == [] then 0 else Max(SpanAll(cases[0].own), Widest(cases[1..]))
  }

  lemma {:induction false} WidestCovers(cases: seq<Case>, i: nat)
    requires i < |cases|
    ensures SpanAll(cases[i].own) <= Widest(cases)
  {
    if i > 0 {
      WidestCovers(cases[1..], i - 1);
    }
  }

  // ---------------------------------------------------------------- an order snapshot's own rules

  const CELL_FIELDS: nat := 6

  function ClientAt(cells: seq<Content>, i: nat): int {
    var at := CELL_FIELDS * i;
    if at < |cells| && cells[at].Held? && cells[at].value.Number? then cells[at].value.n else 0
  }

  function StateAt(cells: seq<Content>, i: nat): int {
    var at := CELL_FIELDS * i + 2;
    if at < |cells| && cells[at].Chosen? then cells[at].tag else 0
  }

  /** Pending, live, cancel in flight, amend in flight and unknown; the rest are terminal. */
  predicate IsWorking(state: int) {
    2 <= state <= 6
  }

  predicate CountsOk(detailLen: int, totalWorking: int) {
    detailLen <= UI_ORDER_SNAPSHOT_CAPACITY && detailLen <= totalWorking <= UI_ORDER_SNAPSHOT_MAX_TOTAL
  }

  function FirstTerminal(cells: seq<Content>, from: nat, until: nat): Option<int>
    decreases until - from
  {
    if from >= until then None
    else if !IsWorking(StateAt(cells, from)) then Some(StateAt(cells, from))
    else FirstTerminal(cells, from + 1, until)
  }

  predicate HeldBefore(cells: seq<Content>, i: nat) {
    exists j: nat :: j < i && ClientAt(cells, j) == ClientAt(cells, i)
  }

  function FirstDuplicate(cells: seq<Content>, from: nat, until: nat): Option<int>
    decreases until - from
  {
    if from >= until then None
    else if HeldBefore(cells, from) then Some(ClientAt(cells, from))
    else FirstDuplicate(cells, from + 1, until)
  }

  /** Every listed order is looked at for its state before any is looked at for its id. */
  function DetailFault(detailLen: nat, cells: seq<Content>): Option<DecodeError> {
    match FirstTerminal(cells, 0, detailLen)
    case Some(state) => Some(OrderTerminal(state))
    case None =>
      match FirstDuplicate(cells, 0, detailLen)
      case Some(id) => Some(OrderDuplicate(id))
      case None => None
  }

  lemma {:induction false} NoTerminal(cells: seq<Content>, from: nat, until: nat)
    ensures FirstTerminal(cells, from, until).None? <==>
            forall i: nat :: from <= i < until ==> IsWorking(StateAt(cells, i))
    decreases until - from
  {
    if from < until {
      NoTerminal(cells, from + 1, until);
    }
  }

  lemma {:induction false} NoDuplicate(cells: seq<Content>, from: nat, until: nat)
    ensures FirstDuplicate(cells, from, until).None? <==> forall i: nat :: from <= i < until ==> !HeldBefore(cells, i)
    decreases until - from
  {
    if from < until {
      NoDuplicate(cells, from + 1, until);
    }
  }

  /** A snapshot is taken exactly when every order it lists is working and no two share a client id. */
  lemma DetailIsSound(detailLen: nat, cells: seq<Content>)
    ensures DetailFault(detailLen, cells).None? <==>
            && (forall i: nat :: i < detailLen ==> IsWorking(StateAt(cells, i)))
            && (forall i: nat, j: nat :: j < i < detailLen ==> ClientAt(cells, j) != ClientAt(cells, i))
  {
    NoTerminal(cells, 0, detailLen);
    NoDuplicate(cells, 0, detailLen);
    assert forall i: nat, j: nat :: j < i < detailLen && ClientAt(cells, j) == ClientAt(cells, i) ==>
           HeldBefore(cells, i);
    hide FirstTerminal, FirstDuplicate, IsWorking, StateAt, ClientAt;
  }

  // ---------------------------------------------------------------- what a shape can hold

  ghost predicate Holds(shape: Shape, content: Content)
    decreases shape
  {
    match shape
    case Field(kind) => content.Held? && Fits(kind, content.value)
    case OneOf(_, first, shared, cases) =>
      && content.Chosen? && first <= content.tag < first + |cases| && content.tag < 0x100
      && HoldAll(shared, content.shared) && HoldAll(cases[content.tag - first].own, content.own)
    case Rung => content.Level? && (content.index.Some? ==> 0 <= content.index.value < UI_QUOTE_LEVELS)
    case Listing(cells) =>
      && content.Listed? && content.detailLen >= 0 && CountsOk(content.detailLen, content.totalWorking)
      && HoldAll(cells, content.cells) && DetailFault(content.detailLen, content.cells).None?
  }

  ghost predicate HoldAll(shapes: seq<Shape>, contents: seq<Content>)
    decreases shapes
  {
    && |shapes| == |contents|
    && (shapes != [] ==> Holds(shapes[0], contents[0]) && HoldAll(shapes[1..], contents[1..]))
  }

  // ---------------------------------------------------------------- writing and reading

  function Padding(n: nat): (zeros: seq<U8>)
    ensures |zeros| == n
  {
    seq(n, i => 0)
  }

  function WriteShape(shape: Shape, content: Content): (bytes: seq<U8>)
    requires Holds(shape, content)
    ensures |bytes| == Span(shape)
    decreases shape
  {
    match shape
    case Field(kind) => WriteField(kind, content.value)
    case OneOf(_, first, shared, cases) =>
      var own := cases[content.tag - first].own;
      WidestCovers(cases, content.tag - first);
      [content.tag] + WriteAll(shared, content.shared) + WriteAll(own, content.own)
      + Padding(Widest(cases) - SpanAll(own))
    case Rung => [if content.index.Some? then content.index.value else NO_QUOTE_LEVEL]
    case Listing(cells) =>
      [content.detailLen] + LittleEndian(2, content.totalWorking) + WriteAll(cells, content.cells)
  }

  function WriteAll(shapes: seq<Shape>, contents: seq<Content>): (bytes: seq<U8>)
    requires HoldAll(shapes, contents)
    ensures |bytes| == SpanAll(shapes)
    decreases shapes
  {
    if shapes == [] then [] else WriteShape(shapes[0], contents[0]) + WriteAll(shapes[1..], contents[1..])
  }

  /** The shared fields are read before the tag is looked at; the padding is not read at all. */
  function ReadShape(shape: Shape, bytes: seq<U8>): Result<Content, DecodeError>
    requires |bytes| == Span(shape)
    decreases shape
  {
    match shape
    case Field(kind) =>
      (match ReadField(kind, bytes) case Err(error) => Err(error) case Ok(value) => Ok(Held(value)))
    case OneOf(field, first, shared, cases) =>
      (match ReadAll(shared, bytes[1..1 + SpanAll(shared)])
       case Err(error) => Err(error)
       case Ok(head) =>
         if !(first <= bytes[0] < first + |cases|) then Err(UnknownDiscriminant(field, bytes[0]))
         else
           var own := cases[bytes[0] - first].own;
           WidestCovers(cases, bytes[0] - first);
           match ReadAll(own, bytes[1 + SpanAll(shared)..1 + SpanAll(shared) + SpanAll(own)])
           case Err(error) => Err(error)
           case Ok(tail) => Ok(Chosen(bytes[0], head, tail)))
    case Rung =>
      if bytes[0] == NO_QUOTE_LEVEL then Ok(Level(None))
      else if bytes[0] < UI_QUOTE_LEVELS then Ok(Level(Some(bytes[0])))
      else Err(UnknownDiscriminant(QuoteLevelLabel, bytes[0]))
    case Listing(cells) =>
      var detailLen, totalWorking := bytes[0], FromLittleEndian(bytes[1..3]);
      if !CountsOk(detailLen, totalWorking) then Err(OrderCountsInvalid(detailLen, totalWorking))
      else
        match ReadAll(cells, bytes[3..])
        case Err(error) => Err(error)
        case Ok(listed) =>
          match DetailFault(detailLen, listed)
          case Some(fault) => Err(fault)
          case None => Ok(Listed(detailLen, totalWorking, listed))
  }

  function ReadAll(shapes: seq<Shape>, bytes: seq<U8>): Result<seq<Content>, DecodeError>
    requires |bytes| == SpanAll(shapes)
    decreases shapes
  {
    if shapes == [] then Ok([])
    else
      match ReadShape(shapes[0], bytes[..Span(shapes[0])])
      case Err(error) => Err(error)
      case Ok(first) =>
        match ReadAll(shapes[1..], bytes[Span(shapes[0])..])
        case Err(error) => Err(error)
        case Ok(rest) => Ok([first] + rest)
  }

  lemma Parts(tag: U8, shared: seq<U8>, own: seq<U8>, padding: seq<U8>)
    ensures var bytes, start := [tag] + shared + own + padding, 1 + |shared|;
            bytes[0] == tag && bytes[1..start] == shared && bytes[start..start + |own|] == own
  {
  }

  /** Reading a choice from its parts. */
  lemma ChoiceReads(shape: Shape, tag: U8, shared: seq<U8>, own: seq<U8>, padding: seq<U8>,
                    head: seq<Content>, tail: seq<Content>)
    requires shape.OneOf? && shape.first <= tag < shape.first + |shape.cases|
    requires |shared| == SpanAll(shape.shared) && ReadAll(shape.shared, shared) == Ok(head)
    requires |own| == SpanAll(shape.cases[tag - shape.first].own)
    requires ReadAll(shape.cases[tag - shape.first].own, own) == Ok(tail)
    requires |[tag] + shared + own + padding| == Span(shape)
    ensures ReadShape(shape, [tag] + shared + own + padding) == Ok(Chosen(tag, head, tail))
  {
    hide ReadAll, SpanAll, Widest, DetailFault;
    Parts(tag, shared, own, padding);
  }

  lemma ChoiceRoundTrip(shape: Shape, content: Content)
    requires shape.OneOf? && Holds(shape, content)
    requires ReadAll(shape.shared, WriteAll(shape.shared, content.shared)) == Ok(content.shared)
    requires var own := shape.cases[content.tag - shape.first].own;
             ReadAll(own, WriteAll(own, content.own)) == Ok(content.own)
    ensures ReadShape(shape, WriteShape(shape, content)) == Ok(content)
  {
    hide ReadAll, WriteAll, SpanAll, Widest, HoldAll, DetailFault, ReadShape, Padding;
    var own := shape.cases[content.tag - shape.first].own;
    WidestCovers(shape.cases, content.tag - shape.first);
    ChoiceReads(shape, content.tag, WriteAll(shape.shared, content.shared), WriteAll(own, content.own),
                Padding(Widest(shape.cases) - SpanAll(own)), content.shared, content.own);
  }

  lemma ListingRoundTrip(shape: Shape, content: Content)
    requires shape.Listing? && Holds(shape, content)
    requires ReadAll(shape.cells, WriteAll(shape.cells, content.cells)) == Ok(content.cells)
    ensures ReadShape(shape, WriteShape(shape, content)) == Ok(content)
  {
    hide ReadAll, WriteAll, SpanAll, Widest, HoldAll, DetailFault, FromLittleEndian, LittleEndian, Pow256;
    var bytes := WriteShape(shape, content);
    assert bytes[1..3] == LittleEndian(2, content.totalWorking) && bytes[3..] == WriteAll(shape.cells, content.cells);
    Pow256Two();
    NumberRoundTrip(2, content.totalWorking);
  }

  /** What was written is read back, through every nested choice. */
  lemma {:induction false} ShapeRoundTrip(shape: Shape, content: Content)
    requires Holds(shape, content)
    ensures ReadShape(shape, WriteShape(shape, content)) == Ok(content)
    decreases shape
  {
    match shape
    case Field(kind) => FieldRoundTrip(kind, content.value);
    case OneOf(_, first, shared, cases) =>
      AllRoundTrip(shared, content.shared);
      AllRoundTrip(cases[content.tag - first].own, content.own);
      ChoiceRoundTrip(shape, content);
    case Rung =>
    case Listing(cells) =>
      AllRoundTrip(cells, content.cells);
      ListingRoundTrip(shape, content);
  }

  lemma {:induction false} AllRoundTrip(shapes: seq<Shape>, contents: seq<Content>)
    requires HoldAll(shapes, contents)
    ensures ReadAll(shapes, WriteAll(shapes, contents)) == Ok(contents)
    decreases shapes
  {
    if shapes != [] {
      var bytes := WriteAll(shapes, contents);
      ShapeRoundTrip(shapes[0], contents[0]);
      AllRoundTrip(shapes[1..], contents[1..]);
      assert bytes[..Span(shapes[0])] == WriteShape(shapes[0], contents[0]);
      assert bytes[Span(shapes[0])..] == WriteAll(shapes[1..], contents[1..]);
      assert contents == [contents[0]] + contents[1..];
    }
  }

  lemma Pow256Two()
    ensures Pow256(2) == 0x1_0000
  {
  }

  lemma ChoiceHolds(shape: Shape, bytes: seq<U8>)
    requires shape.OneOf? && |bytes| == Span(shape) && ReadShape(shape, bytes).Ok?
    requires HoldAll(shape.shared, ReadShape(shape, bytes).value.shared)
    requires HoldAll(shape.cases[bytes[0] - shape.first].own, ReadShape(shape, bytes).value.own)
    ensures Holds(shape, ReadShape(shape, bytes).value)
  {
    hide ReadAll, SpanAll, Widest, HoldAll, DetailFault;
  }

  lemma {:induction false} ReadChoiceHolds(shape: Shape, bytes: seq<U8>)
    requires shape.OneOf? && |bytes| == Span(shape) && ReadShape(shape, bytes).Ok?
    ensures Holds(shape, ReadShape(shape, bytes).value)
    decreases shape, 0
  {
    hide SpanAll, Widest, ReadAll, HoldAll, DetailFault;
    var own, start := shape.cases[bytes[0] - shape.first].own, 1 + SpanAll(shape.shared);
    WidestCovers(shape.cases, bytes[0] - shape.first);
    ReadAllHolds(shape.shared, bytes[1..start]);
    ReadAllHolds(own, bytes[start..start + SpanAll(own)]);
    hide Holds, ReadShape;
    ChoiceHolds(shape, bytes);
  }

  lemma {:induction false} ReadListingHolds(shape: Shape, bytes: seq<U8>)
    requires shape.Listing? && |bytes| == Span(shape) && ReadShape(shape, bytes).Ok?
    ensures Holds(shape, ReadShape(shape, bytes).value)
    decreases shape, 0
  {
    hide SpanAll, Widest, ReadAll, HoldAll, DetailFault, FromLittleEndian;
    ReadAllHolds(shape.cells, bytes[3..]);
  }

  /** Whatever is read is something the shape can hold, so it can be written again. */
  lemma {:induction false} ReadHolds(shape: Shape, bytes: seq<U8>)
    requires |bytes| == Span(shape) && ReadShape(shape, bytes).Ok?
    ensures Holds(shape, ReadShape(shape, bytes).value)
    decreases shape, 1
  {
    hide SpanAll, Widest, ReadAll, HoldAll, DetailFault, FromLittleEndian, CountsOk;
    match shape
    case Field(kind) => ReadFits(kind, bytes);
    case OneOf(_, _, _, _) => ReadChoiceHolds(shape, bytes);
    case Rung =>
    case Listing(_) => ReadListingHolds(shape, bytes);
  }

  lemma {:induction false} ReadAllHolds(shapes: seq<Shape>, bytes: seq<U8>)
    requires |bytes| == SpanAll(shapes) && ReadAll(shapes, bytes).Ok?
    ensures HoldAll(shapes, ReadAll(shapes, bytes).value)
    decreases shapes, 0
  {
    if shapes != [] {
      ReadHolds(shapes[0], bytes[..Span(shapes[0])]);
      ReadAllHolds(shapes[1..], bytes[Span(shapes[0])..]);
      var rest := ReadAll(shapes[1..], bytes[Span(shapes[0])..]).value;
      assert ReadAll(shapes, bytes).value[1..] == rest;
    }
  }

  // ---------------------------------------------------------------- where a choice ends

  /** A choice ends with its own fields; what pads it to the widest case lies past that. */
  function ChoiceEnd(shape: Shape, content: Content): nat
    requires shape.OneOf? && content.Chosen? && shape.first <= content.tag < shape.first + |shape.cases|
  {
    1 + SpanAll(shape.shared) + SpanAll(shape.cases[content.tag - shape.first].own)
  }

  lemma ChosenFromItsTag(shape: Shape, bytes: seq<U8>)
    requires shape.OneOf? && |bytes| == Span(shape) && ReadShape(shape, bytes).Ok?
    ensures var content := ReadShape(shape, bytes).value;
            && content.Chosen? && content.tag == bytes[0] && shape.first <= content.tag < shape.first + |shape.cases|
            && 0 < ChoiceEnd(shape, content) <= Span(shape)
  {
    WidestCovers(shape.cases, bytes[0] - shape.first);
    hide ReadAll, SpanAll, Widest, DetailFault;
  }

  /** Nothing past the end is looked at: bytes that agree up to it read the same. */
  lemma PaddingIsNotRead(shape: Shape, a: seq<U8>, b: seq<U8>, content: Content)
    requires shape.OneOf? && |a| == |b| == Span(shape) && ReadShape(shape, a) == Ok(content)
    requires content.Chosen? && shape.first <= content.tag < shape.first + |shape.cases|
    requires ChoiceEnd(shape, content) <= |a| && a[..ChoiceEnd(shape, content)] == b[..ChoiceEnd(shape, content)]
    ensures ReadShape(shape, b) == Ok(content)
  {
    hide ReadAll, SpanAll, Widest, DetailFault;
    ChosenFromItsTag(shape, a);
    var start, end := 1 + SpanAll(shape.shared), ChoiceEnd(shape, content);
    assert a[0] == a[..end][0] && b[0] == b[..end][0];
    SliceOfPrefix(a, end, 1, start);
    SliceOfPrefix(b, end, 1, start);
    SliceOfPrefix(a, end, start, end);
    SliceOfPrefix(b, end, start, end);
  }

  lemma SliceOfPrefix(s: seq<U8>, end: nat, i: nat, j: nat)
    requires i <= j <= end <= |s|
    ensures s[..end][i..j] == s[i..j]
  {
  }

  lemma SliceOfSlice(s: seq<U8>, from: nat, end: nat, i: nat, j: nat)
    requires from <= end <= |s| && i <= j <= end - from
    ensures s[from..end][i..j] == s[from + i..from + j]
  {
    forall k | 0 <= k < j - i
      ensures s[from..end][i..j][k] == s[from + i..from + j][k]
    {
    }
    assert |s[from..end][i..j]| == |s[from + i..from + j]|;
  }

  // ---------------------------------------------------------------- reading with a cursor

  /** The cursor stops after a choice's own fields; whoever needs the whole width skips the rest. */
  method TakeChoice(reader: ByteReader, shape: Shape) returns (r: Result<Content, DecodeError>)
    requires shape.OneOf? && reader.at + Span(shape) <= |reader.bytes|
    modifies reader`at
    ensures r == ReadShape(shape, reader.bytes[old(reader.at)..old(reader.at) + Span(shape)])
    ensures reader.at <= |reader.bytes|
    ensures r.Ok? ==> r.value.Chosen? && shape.first <= r.value.tag < shape.first + |shape.cases|
    ensures r.Ok? ==> reader.at == old(reader.at) + ChoiceEnd(shape, r.value) <= old(reader.at) + Span(shape)
    decreases shape, 0
  {
    hide ReadAll, SpanAll, Widest, DetailFault;
    ghost var whole, start := reader.bytes[reader.at..reader.at + Span(shape)], reader.at;
    var tag := reader.Take(1);
    assert tag[0] == whole[0];
    SliceOfSlice(reader.bytes, start, start + Span(shape), 1, 1 + SpanAll(shape.shared));
    var head := TakeAll(reader, shape.shared);
    if head.Err? {
      return Err(head.error);
    }
    if !(shape.first <= tag[0] < shape.first + |shape.cases|) {
      return Err(UnknownDiscriminant(shape.field, tag[0]));
    }
    var own := shape.cases[tag[0] - shape.first].own;
    WidestCovers(shape.cases, tag[0] - shape.first);
    ghost var from := 1 + SpanAll(shape.shared);
    SliceOfSlice(reader.bytes, start, start + Span(shape), from, from + SpanAll(own));
    var tail := TakeAll(reader, own);
    r := if tail.Err? then Err(tail.error) else Ok(Chosen(tag[0], head.value, tail.value));
  }

  method TakeListing(reader: ByteReader, shape: Shape) returns (r: Result<Content, DecodeError>)
    requires shape.Listing? && reader.at + Span(shape) <= |reader.bytes|
    modifies reader`at
    ensures r == ReadShape(shape, reader.bytes[old(reader.at)..old(reader.at) + Span(shape)])
    ensures reader.at <= |reader.bytes| && (r.Ok? ==> reader.at == old(reader.at) + Span(shape))
    decreases shape, 0
  {
    hide ReadAll, SpanAll, DetailFault, FromLittleEndian, CountsOk;
    ghost var whole, start := reader.bytes[reader.at..reader.at + Span(shape)], reader.at;
    var detailLen := reader.Take(1);
    var totalWorking := reader.Take(2);
    assert detailLen[0] == whole[0] && totalWorking == whole[1..3];
    if !CountsOk(detailLen[0], FromLittleEndian(totalWorking)) {
      return Err(OrderCountsInvalid(detailLen[0], FromLittleEndian(totalWorking)));
    }
    assert reader.bytes[start + 3..start + Span(shape)] == whole[3..];
    var listed := TakeAll(reader, shape.cells);
    if listed.Err? {
      return Err(listed.error);
    }
    var fault := DetailFault(detailLen[0], listed.value);
    r := if fault.Some? then Err(fault.value)
         else Ok(Listed(detailLen[0], FromLittleEndian(totalWorking), listed.value));
  }

  method TakeShape(reader: ByteReader, shape: Shape) returns (r: Result<Content, DecodeError>)
    requires reader.at + Span(shape) <= |reader.bytes|
    modifies reader`at
    ensures r == ReadShape(shape, reader.bytes[old(reader.at)..old(reader.at) + Span(shape)])
    ensures reader.at <= |reader.bytes| && (r.Ok? ==> reader.at == old(reader.at) + Span(shape))
    decreases shape, 1
  {
    hide ReadAll, SpanAll, Widest, DetailFault, ReadField;
    match shape {
      case Field(kind) =>
        var taken := reader.Take(Width(kind));
        var value := ReadField(kind, taken);
        r := if value.Err? then Err(value.error) else Ok(Held(value.value));
      case OneOf(_, _, _, _) =>
        var end := reader.at + Span(shape);
        r := TakeChoice(reader, shape);
        if r.Ok? {
          reader.SkipTo(end);
        }
      case Rung =>
        var index := reader.Take(1);
        r := if index[0] == NO_QUOTE_LEVEL then Ok(Level(None))
             else if index[0] < UI_QUOTE_LEVELS then Ok(Level(Some(index[0])))
             else Err(UnknownDiscriminant(QuoteLevelLabel, index[0]));
      case Listing(_) =>
        r := TakeListing(reader, shape);
    }
  }

  method TakeAll(reader: ByteReader, shapes: seq<Shape>) returns (r: Result<seq<Content>, DecodeError>)
    requires reader.at + SpanAll(shapes) <= |reader.bytes|
    modifies reader`at
    ensures r == ReadAll(shapes, reader.bytes[old(reader.at)..old(reader.at) + SpanAll(shapes)])
    ensures reader.at <= |reader.bytes| && (r.Ok? ==> reader.at == old(reader.at) + SpanAll(shapes))
    decreases shapes, 0
  {
    hide ReadShape, Span;
    if shapes == [] {
      return Ok([]);
    }
    ghost var whole, start := reader.bytes[reader.at..reader.at + SpanAll(shapes)], reader.at;
    assert reader.bytes[start..start + Span(shapes[0])] == whole[..Span(shapes[0])];
    var first := TakeShape(reader, shapes[0]);
    if first.Err? {
      return Err(first.error);
    }
    assert reader.bytes[reader.at..reader.at + SpanAll(shapes[1..])] == whole[Span(shapes[0])..];
    var rest := TakeAll(reader, shapes[1..]);
    r := if rest.Err? then Err(rest.error) else Ok([first.value] + rest.value);
  }

  // ---------------------------------------------------------------- the feed's shapes

  const Mantissa := Field(Signed64)
  const Stamp := Field(Signed64)
  const Float := Field(Unsigned(8))
  const Id := Field(Unsigned(2))
  const Word64 := Field(Unsigned(8))
  const Word32 := Field(Unsigned(4))

  /** An enumeration of this many variants, the first tagged `first`. */
  function Enumerated(name: Label, first: nat, variants: nat): Shape {
    OneOf(name, first, [], Repeat(Case([]), variants))
  }

  const SideShape := Enumerated(SideLabel, 1, 2)
  const OrderStateShape := Enumerated(OrderStateLabel, 1, 11)

  /** Zero means absent, and the bytes of the value are there either way. */
  const OptionalLevel := OneOf(OptionalMantissa, 0, [], [Case([]), Case([Mantissa, Mantissa])])
  const OptionalFloatShape := OneOf(OptionalFloat, 0, [], [Case([]), Case([Float])])

  const RejectOrigin :=
    OneOf(RejectOriginLabel, 1, [],
          [Case([Enumerated(RejectReasonLabel, 1, 19)]), Case([Enumerated(RejectClassLabel, 1, 5), Word32])])
  const Halt := OneOf(HaltLabel, 1, [], [Case([]), Case([Enumerated(HaltReasonLabel, 1, 7), Stamp])])

  function Times(shapes: seq<Shape>, n: nat): seq<Shape> {
    if n == 0 then [] else shapes + Times(shapes, n - 1)
  }

  /** Client id, level, state, price, quantity, filled. */
  const ORDER_CELL: seq<Shape> := [Word64, Rung, OrderStateShape, Mantissa, Mantissa, Mantissa]
  const ORDERS := Listing(Times(ORDER_CELL, UI_ORDER_SNAPSHOT_CAPACITY))

  /** Six stages of a count and a sum. */
  const LATENCY_ROW: seq<Shape> := Times([Word32, Mantissa], 6)

  const QUOTE_CASE := Case([Id] + Times([OptionalLevel], 2 * UI_QUOTE_LEVELS))
  const TRADE_CASE := Case([Id, SideShape, Mantissa, Mantissa])
  const ORDER_UPDATE_CASE := Case([Id, Word64, Rung, OrderStateShape, SideShape, Mantissa, Mantissa, Mantissa])
  const FEATURE_CASE := Case([Id, Id, Float])
  const FILL_CASE :=
    Case([Id, Rung, SideShape, Mantissa, Mantissa, Mantissa, Id, Enumerated(LiquidityLabel, 0, 3)])
  const ROTATION_CASE := Case([Id])
  const POSITION_CASE := Case([Id, Float, Float])
  const BALANCE_CASE := Case([Id, Mantissa, Mantissa])
  const REJECT_CASE := Case([Id, SideShape, RejectOrigin])
  const EXECUTION_CASE := Case([Halt])
  const ORDER_SNAPSHOT_CASE := Case([Id, SideShape, ORDERS])
  const LATENCY_CASE := Case(Times(LATENCY_ROW, 3) + [OptionalFloatShape])

  const EVENT_CASES: seq<Case> :=
    [QUOTE_CASE, TRADE_CASE, ORDER_UPDATE_CASE, FEATURE_CASE, FILL_CASE, ROTATION_CASE, POSITION_CASE, BALANCE_CASE,
     REJECT_CASE, EXECUTION_CASE, ORDER_SNAPSHOT_CASE, LATENCY_CASE]

  const ORDER_SNAPSHOT_TAG: nat := 11

  /** Every event has its sequence number and its stamp before what is its own. */
  const EVENT := OneOf(EventLabel, 1, [Word64, Stamp], EVENT_CASES)

  const SAMPLE := OneOf(SampleLabel, 1, [Stamp],
                        [Case([Mantissa, Mantissa, Enumerated(GapLabel, 0, 2)]), Case([Float, Float]),
                         Case([SideShape, Mantissa])])

  const EVENT_SHAPES: seq<Shape> := [EVENT]
  const HISTORY_HEAD: seq<Shape> := [Id, Stamp, Word64, Field(Count(1, HistorySamples, UI_HISTORY_SAMPLES))]
  const HISTORY_SHAPES: seq<Shape> := HISTORY_HEAD + Times([SAMPLE], UI_HISTORY_SAMPLES)

  // ---------------------------------------------------------------- and how wide they are

  function SpanAt(shapes: seq<Shape>, k: nat): nat {
    if k < |shapes| then Span(shapes[k]) else 0
  }

  lemma SpanStep(shapes: seq<Shape>, k: nat)
    requires k < |shapes|
    ensures SpanAll(shapes[k..]) == Span(shapes[k]) + SpanAll(shapes[k + 1..])
  {
    assert shapes[k..][1..] == shapes[k + 1..];
  }

  /** A short run of fields, field by field. */
  lemma SpanOf(shapes: seq<Shape>)
    requires |shapes| <= 8
    ensures SpanAll(shapes) == SpanAt(shapes, 0) + SpanAt(shapes, 1) + SpanAt(shapes, 2) + SpanAt(shapes, 3)
                               + SpanAt(shapes, 4) + SpanAt(shapes, 5) + SpanAt(shapes, 6) + SpanAt(shapes, 7)
  {
    var n := |shapes|;
    assert shapes[0..] == shapes && shapes[n..] == [] && SpanAll([]) == 0;
    hide SpanAll, Span;
    forall k | 0 <= k < 8
      ensures SpanAll(shapes[Min(k, n)..]) == SpanAt(shapes, k) + SpanAll(shapes[Min(k + 1, n)..])
    {
      if k < n {
        SpanStep(shapes, k);
      }
    }
  }

  lemma {:induction false} SpanConcat(a: seq<Shape>, b: seq<Shape>)
    ensures SpanAll(a + b) == SpanAll(a) + SpanAll(b)
  {
    hide Span;
    if a == [] {
      assert a + b == b;
    } else {
      assert (a + b)[1..] == a[1..] + b;
      SpanConcat(a[1..], b);
    }
  }

  lemma {:induction false} SpanTimes(shapes: seq<Shape>, n: nat)
    ensures SpanAll(Times(shapes, n)) == n * SpanAll(shapes)
  {
    hide Span;
    if n > 0 {
      SpanConcat(shapes, Times(shapes, n - 1));
      SpanTimes(shapes, n - 1);
      hide SpanAll;
      assert n * SpanAll(shapes) == SpanAll(shapes) + (n - 1) * SpanAll(shapes);
    }
  }

  lemma {:induction false} WidestWithin(cases: seq<Case>, bound: nat)
    requires forall i :: 0 <= i < |cases| ==> SpanAll(cases[i].own) <= bound
    ensures Widest(cases) <= bound
  {
    if cases != [] {
      WidestWithin(cases[1..], bound);
    }
  }

  /** The case at `top` sets the width of a choice when no other has more fields of its own. */
  lemma ChoiceSpan(shape: Shape, top: nat)
    requires shape.OneOf? && top < |shape.cases|
    requires forall i :: 0 <= i < |shape.cases| ==> SpanAll(shape.cases[i].own) <= SpanAll(shape.cases[top].own)
    ensures Span(shape) == 1 + SpanAll(shape.shared) + SpanAll(shape.cases[top].own)
  {
    WidestCovers(shape.cases, top);
    WidestWithin(shape.cases, SpanAll(shape.cases[top].own));
    hide SpanAll, Widest;
  }

  lemma EnumeratedSpan(field: Label, first: nat, variants: nat)
    requires variants > 0
    ensures Span(Enumerated(field, first, variants)) == 1
  {
    hide Span, SpanAll;
    SpanOf([]);
    ChoiceSpan(Enumerated(field, first, variants), 0);
  }

  lemma FieldSpans()
    ensures Span(Mantissa) == Span(Stamp) == Span(Float) == Span(Word64) == 8 && Span(Word32) == 4 && Span(Id) == 2
    ensures Span(Rung) == 1 && Span(SideShape) == Span(OrderStateShape) == 1
    ensures forall cells :: Span(Listing(cells)) == 3 + SpanAll(cells)
  {
    hide Enumerated;
    EnumeratedSpan(SideLabel, 1, 2);
    EnumeratedSpan(OrderStateLabel, 1, 11);
  }

  lemma ChoiceSpans()
    ensures Span(OptionalLevel) == 17 && Span(OptionalFloatShape) == 9 && Span(RejectOrigin) == 6 && Span(Halt) == 10
  {
    hide Span, SpanAll, Enumerated;
    FieldSpans();
    EnumeratedSpan(RejectReasonLabel, 1, 19);
    EnumeratedSpan(RejectClassLabel, 1, 5);
    EnumeratedSpan(HaltReasonLabel, 1, 7);
    SpanOf([]);
    SpanOf([Mantissa, Mantissa]);
    SpanOf([Float]);
    SpanOf([Enumerated(RejectReasonLabel, 1, 19)]);
    SpanOf([Enumerated(RejectClassLabel, 1, 5), Word32]);
    SpanOf([Enumerated(HaltReasonLabel, 1, 7), Stamp]);
    ChoiceSpan(OptionalLevel, 1);
    ChoiceSpan(OptionalFloatShape, 1);
    ChoiceSpan(RejectOrigin, 1);
    ChoiceSpan(Halt, 1);
  }

  lemma ShortSpans()
    ensures SpanAll(TRADE_CASE.own) == 19 && SpanAll(FEATURE_CASE.own) == 12 && SpanAll(ROTATION_CASE.own) == 2
    ensures SpanAll(POSITION_CASE.own) == SpanAll(BALANCE_CASE.own) == 18
    ensures SpanAll(REJECT_CASE.own) == 9 && SpanAll(EXECUTION_CASE.own) == 10
    ensures SpanAll(ORDER_UPDATE_CASE.own) == 37 && SpanAll(FILL_CASE.own) == 31
  {
    hide Span, SpanAll, Enumerated;
    FieldSpans();
    ChoiceSpans();
    EnumeratedSpan(LiquidityLabel, 0, 3);
    SpanOf(TRADE_CASE.own);
    SpanOf(FEATURE_CASE.own);
    SpanOf(ROTATION_CASE.own);
    SpanOf(POSITION_CASE.own);
    SpanOf(BALANCE_CASE.own);
    SpanOf(REJECT_CASE.own);
    SpanOf(EXECUTION_CASE.own);
    SpanOf(ORDER_UPDATE_CASE.own);
    SpanOf(FILL_CASE.own);
  }

  lemma LongSpans()
    ensures SpanAll(QUOTE_CASE.own) == 274 && SpanAll(LATENCY_CASE.own) == 225
    ensures SpanAll(ORDER_SNAPSHOT_CASE.own) == 278
  {
    hide Span, SpanAll, Times;
    FieldSpans();
    ChoiceSpans();
    SpanOf([Id]);
    SpanOf([OptionalLevel]);
    SpanTimes([OptionalLevel], 2 * UI_QUOTE_LEVELS);
    SpanConcat([Id], Times([OptionalLevel], 2 * UI_QUOTE_LEVELS));
    SpanOf([Word32, Mantissa]);
    SpanTimes([Word32, Mantissa], 6);
    SpanTimes(LATENCY_ROW, 3);
    SpanOf([OptionalFloatShape]);
    SpanConcat(Times(LATENCY_ROW, 3), [OptionalFloatShape]);
    SpanOf(ORDER_CELL);
    SpanTimes(ORDER_CELL, UI_ORDER_SNAPSHOT_CAPACITY);
    SpanOf(ORDER_SNAPSHOT_CASE.own);
  }

  /** The order snapshot is the widest event, and the only one as wide. */
  lemma WidestEvent(i: nat)
    requires i < |EVENT_CASES|
    ensures SpanAll(EVENT_CASES[i].own) <= 278
    ensures SpanAll(EVENT_CASES[i].own) == 278 <==> i == ORDER_SNAPSHOT_TAG - 1
  {
    hide SpanAll;
    ShortSpans();
    LongSpans();
  }

  lemma EventSpan()
    ensures SpanAll(EVENT_SHAPES) == Span(EVENT) == 295 && SpanAll(EVENT.shared) == 16
  {
    hide Span, SpanAll;
    FieldSpans();
    forall i | 0 <= i < |EVENT_CASES|
      ensures SpanAll(EVENT_CASES[i].own) <= SpanAll(EVENT_CASES[ORDER_SNAPSHOT_TAG - 1].own)
    {
      WidestEvent(i);
      WidestEvent(ORDER_SNAPSHOT_TAG - 1);
    }
    WidestEvent(ORDER_SNAPSHOT_TAG - 1);
    SpanOf([Word64, Stamp]);
    ChoiceSpan(EVENT, ORDER_SNAPSHOT_TAG - 1);
    SpanOf(EVENT_SHAPES);
  }

  /** Where an event's own bytes end. */
  function EventEnd(event: seq<Content>): nat {
    if |event| == 1 && event[0].Chosen? && 1 <= event[0].tag <= |EVENT_CASES| then ChoiceEnd(EVENT, event[0]) else 0
  }

  lemma EventReads(bytes: seq<U8>)
    requires |bytes| == 295
    ensures SpanAll(EVENT_SHAPES) == Span(EVENT) == 295
    ensures ReadAll(EVENT_SHAPES, bytes)
         == match ReadShape(EVENT, bytes) case Err(error) => Err(error) case Ok(event) => Ok([event])
  {
    hide SpanAll, Span, ReadShape, ReadAll;
    EventSpan();
    ReadOne(EVENT, bytes);
  }

  lemma ReadOne(shape: Shape, bytes: seq<U8>)
    requires |bytes| == Span(shape)
    ensures SpanAll([shape]) == Span(shape)
    ensures ReadAll([shape], bytes)
         == match ReadShape(shape, bytes) case Err(error) => Err(error) case Ok(content) => Ok([content])
  {
    var shapes := [shape];
    assert shapes[1..] == [] && SpanAll(shapes[1..]) == 0;
    assert bytes[..Span(shape)] == bytes && bytes[Span(shape)..] == [];
    assert ReadAll(shapes[1..], bytes[Span(shape)..]) == Ok([]);
    if ReadShape(shape, bytes).Ok? {
      assert [ReadShape(shape, bytes).value] + [] == [ReadShape(shape, bytes).value];
    }
  }

  /** An event that reads ends inside its body, and at the end of it exactly when it is an order snapshot. */
  lemma EventEnds(bytes: seq<U8>)
    requires |bytes| == 295 && SpanAll(EVENT_SHAPES) == 295 && ReadAll(EVENT_SHAPES, bytes).Ok?
    ensures var event := ReadAll(EVENT_SHAPES, bytes).value;
            && |event| == 1 && event[0].Chosen? && 1 <= event[0].tag <= |EVENT_CASES|
            && 0 < EventEnd(event) <= |bytes|
            && (EventEnd(event) == |bytes| <==> event[0].tag == ORDER_SNAPSHOT_TAG)
  {
    hide Span, SpanAll, ReadShape, ReadAll;
    EventReads(bytes);
    EventSpan();
    ChosenFromItsTag(EVENT, bytes);
    WidestEvent(ReadShape(EVENT, bytes).value.tag - 1);
  }

  lemma EventPaddingIsNotRead(a: seq<U8>, b: seq<U8>)
    requires |a| == |b| == Span(EVENT) == 295 && ReadShape(EVENT, a).Ok?
    requires var end := EventEnd([ReadShape(EVENT, a).value]); end <= |a| && a[..end] == b[..end]
    ensures ReadShape(EVENT, b) == ReadShape(EVENT, a)
  {
    hide Span, SpanAll, ReadShape, ReadAll;
    ChosenFromItsTag(EVENT, a);
    PaddingIsNotRead(EVENT, a, b, ReadShape(EVENT, a).value);
  }

  lemma HistorySpan()
    ensures SpanAll(HISTORY_SHAPES) == 1111
  {
    hide SpanAll, Enumerated, Times;
    FieldSpans();
    EnumeratedSpan(GapLabel, 0, 2);
    SpanOf([Mantissa, Mantissa, Enumerated(GapLabel, 0, 2)]);
    SpanOf([Float, Float]);
    SpanOf([SideShape, Mantissa]);
    SpanOf([Stamp]);
    ChoiceSpan(SAMPLE, 0);
    SpanOf([SAMPLE]);
    SpanTimes([SAMPLE], UI_HISTORY_SAMPLES);
    SpanOf(HISTORY_HEAD);
    SpanConcat(HISTORY_HEAD, Times([SAMPLE], UI_HISTORY_SAMPLES));
  }
}
