/** Datagrams (src/link/frame.rs, src/link/control.rs, src/link/envelope.rs): an envelope checked in a fixed
    order, then one body whose kind the topic decides. Event and history bodies are blocks of bytes read by
    their own shapes. */
module Frame {
  import opened Common
  import opened Wire
  import Feed

  const LINK_MAGIC: U32 := 0x504C_4E4B
  const LINK_VERSION: U16 := 10
  const LINK_MAC_LEN: nat := 32
  const LINK_MAX_DATAGRAM: nat := 1200
  const LINK_MAX_TOPICS: nat := 16
  const LINK_MAX_FIELDS: nat := 38
  const UI_BOOK_LEVELS: nat := 32

  const ENVELOPE_LEN: nat := 4 + 2 + 2 + 8 + 8 + 8 + 8 + 8 + LINK_MAC_LEN
  const NAME_LEN: nat := 1 + LINK_NAME_LEN
  const SUBSCRIBE_BODY_LEN: nat := 1 + 2 * LINK_MAX_TOPICS + 1 + 8
  const BOOK_BODY_LEN: nat := 2 + 8 + 8 + 1 + 2 + 2 + 2 * UI_BOOK_LEVELS * 16
  const EVENT_BODY_LEN: nat := 295
  const HISTORY_BODY_LEN: nat := 1111
  const CATALOG_INSTRUMENT_BODY_LEN: nat := 8 + 2 + 2 + NAME_LEN + 2 * 9 + 8 + 2 + 2 + 2 * NAME_LEN
  const CATALOG_FEATURE_BODY_LEN: nat := 8 + 2 + 2 + NAME_LEN
  const LIFECYCLE_BODY_LEN: nat := 1 + 1 + 1 + 8 + 8 + 2
  const PAYLOAD_BODY_LEN: nat := 8 + 8 + 1 + 8 * LINK_MAX_FIELDS

  const SUBSCRIBE: U16 := 0
  const BOOKS: U16 := 1
  const EVENTS: U16 := 2
  const CATALOG_INSTRUMENTS: U16 := 3
  const CATALOG_FEATURES: U16 := 4
  const LIFECYCLE: U16 := 5
  const HISTORY: U16 := 6
  const FIRST_STRATEGY: U16 := 16

  // ---------------------------------------------------------------- records

  datatype Envelope = Envelope(
    magic: U32, version: U16, topic: U16, tokenHash: U64, strategyHash: U64, senderTeHash: U64,
    bootTs: I64, seqNo: U64, mac: seq<U8>)

  datatype RunPhase = Starting | Ready | Draining | Stopped
  datatype ExecutionMode = Off | Sim | Live
  datatype BookState = AwaitingSnapshot | Valid

  datatype WireName = WireName(bytes: seq<U8>, len: int)
  datatype TopicSet = TopicSet(topics: seq<U16>, len: int)
  datatype WireLevel = WireLevel(price: I64, qty: I64)

  datatype Subscription = Subscription(topics: TopicSet, desiredState: RunState, desiredEpoch: U64)

  datatype BookSnapshot = BookSnapshot(
    instrument: U16, seqNo: U64, eventTs: I64, state: BookState, bidLen: int, askLen: int,
    bids: seq<WireLevel>, asks: seq<WireLevel>)

  datatype LifecycleReport = LifecycleReport(
    phase: RunPhase, runState: RunState, executionMode: Option<ExecutionMode>,
    acknowledgedEpoch: U64, spinIntervalUs: I64, featureCount: U16)

  datatype CatalogInstrument = CatalogInstrument(
    catalogTs: I64, totalCount: U16, instrument: U16, display: WireName, tickSize: Option<I64>, lotSize: Option<I64>,
    qtyScale: I64, baseAsset: U16, quoteAsset: U16, baseName: WireName, quoteName: WireName)

  datatype CatalogFeature = CatalogFeature(catalogTs: I64, totalCount: U16, feature: U16, name: WireName)

  /** Payload values are opaque 64-bit words. */
  datatype LinkPayload = LinkPayload(schemaHash: U64, eventTs: I64, count: int, words: seq<U64>)

  datatype LinkBody =
    | SubscribeBody(subscription: Subscription)
    | BookBody(book: BookSnapshot)
    | EventBody(event: seq<Feed.Content>)
    | InstrumentBody(instrument: CatalogInstrument)
    | FeatureBody(feature: CatalogFeature)
    | LifecycleBody(report: LifecycleReport)
    | HistoryBody(history: seq<Feed.Content>)
    | PayloadBody(payload: LinkPayload)

  datatype LinkDatagram = LinkDatagram(envelope: Envelope, body: LinkBody)

  datatype FrameGuard = FrameGuard(tokenHash: U64, strategyHash: U64, schemaHash: U64)

  predicate IsStrategyTopic(topic: U16) {
    topic >= FIRST_STRATEGY
  }

  function ExpectedTopic(body: LinkBody): Option<U16> {
    match body
    case SubscribeBody(_) => Some(SUBSCRIBE)
    case BookBody(_) => Some(BOOKS)
    case EventBody(_) => Some(EVENTS)
    case InstrumentBody(_) => Some(CATALOG_INSTRUMENTS)
    case FeatureBody(_) => Some(CATALOG_FEATURES)
    case LifecycleBody(_) => Some(LIFECYCLE)
    case HistoryBody(_) => Some(HISTORY)
    case PayloadBody(_) => None
  }

  predicate BelongsOn(body: LinkBody, topic: U16) {
    match ExpectedTopic(body)
    case Some(expected) => topic == expected
    case None => IsStrategyTopic(topic)
  }

  // ---------------------------------------------------------------- layouts

  const ENVELOPE_LAYOUT: Layout :=
    [Unsigned(4), Unsigned(2), Unsigned(2), Unsigned(8), Unsigned(8), Unsigned(8), Signed64, Unsigned(8),
     Block(LINK_MAC_LEN)]

  const LIFECYCLE_LAYOUT: Layout :=
    [Variant(RunPhaseLabel, 4), Variant(RunStateLabel, 2), Variant(ExecutionModeLabel, 4),
     Unsigned(8), Signed64, Unsigned(2)]

  const INSTRUMENT_LAYOUT: Layout :=
    [Signed64, Unsigned(2), Unsigned(2), Name, OptionalSigned64, OptionalSigned64, Signed64,
     Unsigned(2), Unsigned(2), Name, Name]

  const FEATURE_LAYOUT: Layout := [Signed64, Unsigned(2), Unsigned(2), Name]

  const SUBSCRIBE_HEAD: Layout := [Count(1, Topics, LINK_MAX_TOPICS)]
  const SUBSCRIBE_TAIL: Layout := [Variant(RunStateLabel, 2), Unsigned(8)]
  const BOOK_HEAD: Layout :=
    [Unsigned(2), Unsigned(8), Signed64, Variant(BookStateLabel, 2),
     Count(2, BookLevels, UI_BOOK_LEVELS), Count(2, BookLevels, UI_BOOK_LEVELS)]
  const PAYLOAD_HEAD: Layout := [Unsigned(8), Signed64, Count(1, Fields, LINK_MAX_FIELDS)]

  const SUBSCRIBE_LAYOUT: Layout := SUBSCRIBE_HEAD + (Repeat(Unsigned(2), LINK_MAX_TOPICS) + SUBSCRIBE_TAIL)
  const BOOK_LAYOUT: Layout := BOOK_HEAD + Repeat(Signed64, 4 * UI_BOOK_LEVELS)
  const PAYLOAD_LAYOUT: Layout := PAYLOAD_HEAD + Repeat(Unsigned(8), LINK_MAX_FIELDS)

  function TopicLayout(topic: U16): Option<Layout> {
    if topic == SUBSCRIBE then Some(SUBSCRIBE_LAYOUT)
    else if topic == BOOKS then Some(BOOK_LAYOUT)
    else if topic == EVENTS then Some([Block(EVENT_BODY_LEN)])
    else if topic == CATALOG_INSTRUMENTS then Some(INSTRUMENT_LAYOUT)
    else if topic == CATALOG_FEATURES then Some(FEATURE_LAYOUT)
    else if topic == LIFECYCLE then Some(LIFECYCLE_LAYOUT)
    else if topic == HISTORY then Some([Block(HISTORY_BODY_LEN)])
    else if IsStrategyTopic(topic) then Some(PAYLOAD_LAYOUT)
    else None
  }

  function TopicBodyLen(topic: U16): Option<nat> {
    if topic == SUBSCRIBE then Some(SUBSCRIBE_BODY_LEN)
    else if topic == BOOKS then Some(BOOK_BODY_LEN)
    else if topic == EVENTS then Some(EVENT_BODY_LEN)
    else if topic == CATALOG_INSTRUMENTS then Some(CATALOG_INSTRUMENT_BODY_LEN)
    else if topic == CATALOG_FEATURES then Some(CATALOG_FEATURE_BODY_LEN)
    else if topic == LIFECYCLE then Some(LIFECYCLE_BODY_LEN)
    else if topic == HISTORY then Some(HISTORY_BODY_LEN)
    else if IsStrategyTopic(topic) then Some(PAYLOAD_BODY_LEN)
    else None
  }

  lemma EnvelopeWidth()
    ensures LayoutWidth(ENVELOPE_LAYOUT) == ENVELOPE_LEN
  {
    WidthOf3(ENVELOPE_LAYOUT);
    WidthOf3(ENVELOPE_LAYOUT[3..]);
    WidthOf3(ENVELOPE_LAYOUT[6..]);
    assert ENVELOPE_LAYOUT[3..][3..] == ENVELOPE_LAYOUT[6..];
    assert ENVELOPE_LAYOUT[6..][3..] == [];
  }

  lemma WidthOf3(layout: Layout)
    requires |layout| >= 3
    ensures LayoutWidth(layout) == Width(layout[0]) + Width(layout[1]) + Width(layout[2]) + LayoutWidth(layout[3..])
  {
    assert layout[1..][1..] == layout[2..] && layout[2..][1..] == layout[3..];
    assert LayoutWidth(layout[1..]) == Width(layout[1]) + LayoutWidth(layout[2..]);
    assert LayoutWidth(layout[2..]) == Width(layout[2]) + LayoutWidth(layout[3..]);
  }

  lemma SubscribeWidth()
    ensures LayoutWidth(SUBSCRIBE_LAYOUT) == SUBSCRIBE_BODY_LEN
  {
    LayoutWidthConcat(SUBSCRIBE_HEAD, Repeat(Unsigned(2), LINK_MAX_TOPICS) + SUBSCRIBE_TAIL);
    LayoutWidthConcat(Repeat(Unsigned(2), LINK_MAX_TOPICS), SUBSCRIBE_TAIL);
    RepeatedWidth(Unsigned(2), LINK_MAX_TOPICS);
    assert SUBSCRIBE_HEAD[1..] == [] && SUBSCRIBE_TAIL[1..][1..] == [];
  }

  lemma BookWidth()
    ensures LayoutWidth(BOOK_LAYOUT) == BOOK_BODY_LEN
  {
    LayoutWidthConcat(BOOK_HEAD, Repeat(Signed64, 4 * UI_BOOK_LEVELS));
    RepeatedWidth(Signed64, 4 * UI_BOOK_LEVELS);
    WidthOf3(BOOK_HEAD);
    WidthOf3(BOOK_HEAD[3..]);
    assert BOOK_HEAD[3..][3..] == [];
  }

  lemma InstrumentWidth()
    ensures LayoutWidth(INSTRUMENT_LAYOUT) == CATALOG_INSTRUMENT_BODY_LEN
  {
  }

  lemma FeatureWidth()
    ensures LayoutWidth(FEATURE_LAYOUT) == CATALOG_FEATURE_BODY_LEN
  {
  }

  lemma LifecycleWidth()
    ensures LayoutWidth(LIFECYCLE_LAYOUT) == LIFECYCLE_BODY_LEN
  {
  }

  lemma PayloadWidth()
    ensures LayoutWidth(PAYLOAD_LAYOUT) == PAYLOAD_BODY_LEN
  {
    LayoutWidthConcat(PAYLOAD_HEAD, Repeat(Unsigned(8), LINK_MAX_FIELDS));
    RepeatedWidth(Unsigned(8), LINK_MAX_FIELDS);
    WidthOf3(PAYLOAD_HEAD);
    assert PAYLOAD_HEAD[3..] == [];
  }

  lemma BlockWidth(length: nat)
    ensures LayoutWidth([Block(length)]) == length
  {
  }

  /** Each topic's declared length is the width of its layout, and every datagram fits the buffer. */
  lemma TopicWidth(topic: U16)
    ensures TopicLayout(topic).Some? <==> TopicBodyLen(topic).Some?
    ensures TopicLayout(topic).Some? ==>
              LayoutWidth(TopicLayout(topic).value) == TopicBodyLen(topic).value <= LINK_MAX_DATAGRAM - ENVELOPE_LEN
  {
    hide LayoutWidth;
    SubscribeWidth();
    BookWidth();
    InstrumentWidth();
    FeatureWidth();
    LifecycleWidth();
    PayloadWidth();
    BlockWidth(EVENT_BODY_LEN);
    BlockWidth(HISTORY_BODY_LEN);
  }

  // ---------------------------------------------------------------- records as field values

  ghost predicate NameOk(name: WireName) {
    Fits(Name, NameValue(name))
  }

  function NameValue(name: WireName): Value {
    Text(name.bytes, name.len)
  }

  function OptionalValue(v: Option<I64>): Value {
    Optional(v)
  }

  function RunStateTag(s: RunState): int {
    match s case Running => 1 case Idle => 2
  }

  function RunStateOf(tag: int): RunState {
    if tag == 1 then Running else Idle
  }

  function RunPhaseTag(p: RunPhase): int {
    match p case Starting => 1 case Ready => 2 case Draining => 3 case Stopped => 4
  }

  function RunPhaseOf(tag: int): RunPhase {
    if tag == 1 then Starting else if tag == 2 then Ready else if tag == 3 then Draining else Stopped
  }

  function ModeTag(m: Option<ExecutionMode>): int {
    match m case None => 1 case Some(Off) => 2 case Some(Sim) => 3 case Some(Live) => 4
  }

  function ModeOf(tag: int): Option<ExecutionMode> {
    if tag == 1 then None else if tag == 2 then Some(Off) else if tag == 3 then Some(Sim) else Some(Live)
  }

  lemma Pow256Values()
    ensures Pow256(1) == 0x100 && Pow256(2) == 0x1_0000 && Pow256(4) == 0x1_0000_0000 && Pow256(8) == TWO_64
  {
  }

  function EnvelopeValues(e: Envelope): seq<Value> {
    [Number(e.magic), Number(e.version), Number(e.topic), Number(e.tokenHash), Number(e.strategyHash),
     Number(e.senderTeHash), Number(e.bootTs), Number(e.seqNo), Raw(e.mac)]
  }

  function EnvelopeOf(vs: seq<Value>): Envelope
    requires AllFit(ENVELOPE_LAYOUT, vs)
  {
    Pow256Values();
    Envelope(vs[0].n, vs[1].n, vs[2].n, vs[3].n, vs[4].n, vs[5].n, vs[6].n, vs[7].n, vs[8].raw)
  }

  lemma EnvelopeFits(e: Envelope)
    requires |e.mac| == LINK_MAC_LEN
    ensures AllFit(ENVELOPE_LAYOUT, EnvelopeValues(e)) && EnvelopeOf(EnvelopeValues(e)) == e
  {
  }

  function LifecycleValues(r: LifecycleReport): seq<Value> {
    [Tag(RunPhaseTag(r.phase)), Tag(RunStateTag(r.runState)), Tag(ModeTag(r.executionMode)),
     Number(r.acknowledgedEpoch), Number(r.spinIntervalUs), Number(r.featureCount)]
  }

  function LifecycleOf(vs: seq<Value>): LifecycleReport
    requires AllFit(LIFECYCLE_LAYOUT, vs)
  {
    Pow256Values();
    LifecycleReport(RunPhaseOf(vs[0].tag), RunStateOf(vs[1].tag), ModeOf(vs[2].tag), vs[3].n, vs[4].n, vs[5].n)
  }

  lemma LifecycleFits(r: LifecycleReport)
    ensures AllFit(LIFECYCLE_LAYOUT, LifecycleValues(r)) && LifecycleOf(LifecycleValues(r)) == r
  {
    Pow256Values();
  }

  function InstrumentValues(i: CatalogInstrument): seq<Value> {
    [Number(i.catalogTs), Number(i.totalCount), Number(i.instrument), NameValue(i.display), OptionalValue(i.tickSize),
     OptionalValue(i.lotSize), Number(i.qtyScale), Number(i.baseAsset), Number(i.quoteAsset),
     NameValue(i.baseName), NameValue(i.quoteName)]
  }

  function NameOf(v: Value): WireName
    requires v.Text?
  {
    WireName(v.bytes, v.len)
  }

  function OptionOf(v: Value): Option<I64>
    requires Fits(OptionalSigned64, v)
  {
    match v.v case None => None case Some(n) => Some(n)
  }

  function InstrumentOf(vs: seq<Value>): CatalogInstrument
    requires AllFit(INSTRUMENT_LAYOUT, vs)
  {
    Pow256Values();
    assert Fits(INSTRUMENT_LAYOUT[4], vs[4]) && Fits(INSTRUMENT_LAYOUT[5], vs[5]);
    CatalogInstrument(vs[0].n, vs[1].n, vs[2].n, NameOf(vs[3]), OptionOf(vs[4]), OptionOf(vs[5]),
                      vs[6].n, vs[7].n, vs[8].n,
                      NameOf(vs[9]), NameOf(vs[10]))
  }

  lemma InstrumentFits(i: CatalogInstrument)
    requires NameOk(i.display) && NameOk(i.baseName) && NameOk(i.quoteName)
    ensures AllFit(INSTRUMENT_LAYOUT, InstrumentValues(i)) && InstrumentOf(InstrumentValues(i)) == i
  {
    Pow256Values();
  }

  function FeatureValues(f: CatalogFeature): seq<Value> {
    [Number(f.catalogTs), Number(f.totalCount), Number(f.feature), NameValue(f.name)]
  }

  function FeatureOf(vs: seq<Value>): CatalogFeature
    requires AllFit(FEATURE_LAYOUT, vs)
  {
    Pow256Values();
    CatalogFeature(vs[0].n, vs[1].n, vs[2].n, NameOf(vs[3]))
  }

  lemma FeatureFits(f: CatalogFeature)
    requires NameOk(f.name)
    ensures AllFit(FEATURE_LAYOUT, FeatureValues(f)) && FeatureOf(FeatureValues(f)) == f
  {
  }

  // The three records that carry a count and a fixed run of slots.

  function Numbers(ns: seq<int>): (vs: seq<Value>)
    ensures |vs| == |ns| && forall i :: 0 <= i < |ns| ==> vs[i] == Number(ns[i])
  {
    seq(|ns|, i requires 0 <= i < |ns| => Number(ns[i]))
  }

  ghost predicate TopicSetOk(t: TopicSet) {
    && |t.topics| == LINK_MAX_TOPICS && 0 <= t.len <= LINK_MAX_TOPICS
    && forall i :: t.len <= i < LINK_MAX_TOPICS ==> t.topics[i] == 0
  }

  /** Slots past the count go out as zero. */
  function SubscribeValues(s: Subscription): seq<Value>
    requires TopicSetOk(s.topics)
  {
    [Number(s.topics.len)]
    + (Numbers(seq(LINK_MAX_TOPICS, i requires 0 <= i < LINK_MAX_TOPICS =>
            if i < s.topics.len then s.topics.topics[i] else 0))
       + [Tag(RunStateTag(s.desiredState)), Number(s.desiredEpoch)])
  }

  /** Slots past the count are zeroed as they come in. */
  function SubscribeOf(vs: seq<Value>): (s: Subscription)
    requires AllFit(SUBSCRIBE_LAYOUT, vs)
    ensures TopicSetOk(s.topics)
  {
    Pow256Values();
    assert forall i :: 1 <= i < 1 + LINK_MAX_TOPICS ==> SUBSCRIBE_LAYOUT[i] == Unsigned(2);
    var count := vs[0].n;
    Subscription(
      TopicSet(seq(LINK_MAX_TOPICS, i requires 0 <= i < LINK_MAX_TOPICS =>
                   if i < count then vs[1 + i].n else 0), count),
      RunStateOf(vs[17].tag), vs[18].n)
  }

  lemma SubscribeFits(s: Subscription)
    requires TopicSetOk(s.topics)
    ensures AllFit(SUBSCRIBE_LAYOUT, SubscribeValues(s)) && SubscribeOf(SubscribeValues(s)) == s
  {
    Pow256Values();
    var vs := SubscribeValues(s);
    forall i | 0 <= i < |SUBSCRIBE_LAYOUT|
      ensures Fits(SUBSCRIBE_LAYOUT[i], vs[i])
    {
    }
    assert SubscribeOf(vs).topics.topics == s.topics.topics;
  }

  ghost predicate BookOk(b: BookSnapshot) {
    && |b.bids| == |b.asks| == UI_BOOK_LEVELS
    && 0 <= b.bidLen <= UI_BOOK_LEVELS && 0 <= b.askLen <= UI_BOOK_LEVELS
  }

  /** Two numbers a level, bids before asks. */
  function LevelNumbers(bids: seq<WireLevel>, asks: seq<WireLevel>): (ns: seq<int>)
    requires |bids| == |asks| == UI_BOOK_LEVELS
    ensures |ns| == 4 * UI_BOOK_LEVELS
  {
    seq(4 * UI_BOOK_LEVELS, i requires 0 <= i < 4 * UI_BOOK_LEVELS =>
      var level := if i / 2 < UI_BOOK_LEVELS then bids[i / 2] else asks[i / 2 - UI_BOOK_LEVELS];
      if i % 2 == 0 then level.price else level.qty)
  }

  function BookValues(b: BookSnapshot): seq<Value>
    requires BookOk(b)
  {
    [Number(b.instrument), Number(b.seqNo), Number(b.eventTs), Tag(if b.state.AwaitingSnapshot? then 1 else 2),
     Number(b.bidLen), Number(b.askLen)] + Numbers(LevelNumbers(b.bids, b.asks))
  }

  function LevelsAt(vs: seq<Value>, start: nat): (levels: seq<WireLevel>)
    requires start + 2 * UI_BOOK_LEVELS <= |vs|
    requires forall i :: start <= i < start + 2 * UI_BOOK_LEVELS ==> vs[i].Number? && I64_MIN <= vs[i].n <= I64_MAX
    ensures |levels| == UI_BOOK_LEVELS
  {
    seq(UI_BOOK_LEVELS, i requires 0 <= i < UI_BOOK_LEVELS => WireLevel(vs[start + 2 * i].n, vs[start + 2 * i + 1].n))
  }

  function BookOf(vs: seq<Value>): (b: BookSnapshot)
    requires AllFit(BOOK_LAYOUT, vs)
    ensures BookOk(b)
  {
    Pow256Values();
    assert forall i :: 6 <= i < |BOOK_LAYOUT| ==> BOOK_LAYOUT[i] == Signed64;
    BookSnapshot(vs[0].n, vs[1].n, vs[2].n, if vs[3].tag == 1 then AwaitingSnapshot else Valid, vs[4].n, vs[5].n,
                 LevelsAt(vs, 6), LevelsAt(vs, 6 + 2 * UI_BOOK_LEVELS))
  }

  lemma LevelsInNumbers(bids: seq<WireLevel>, asks: seq<WireLevel>, k: nat)
    requires |bids| == |asks| == UI_BOOK_LEVELS && k < UI_BOOK_LEVELS
    ensures var ns, half := LevelNumbers(bids, asks), 2 * UI_BOOK_LEVELS;
            && WireLevel(ns[2 * k], ns[2 * k + 1]) == bids[k]
            && WireLevel(ns[half + 2 * k], ns[half + 2 * k + 1]) == asks[k]
  {
  }

  lemma BookValuesFit(b: BookSnapshot)
    requires BookOk(b)
    ensures AllFit(BOOK_LAYOUT, BookValues(b))
  {
    Pow256Values();
    var vs := BookValues(b);
    forall i | 0 <= i < |BOOK_LAYOUT|
      ensures Fits(BOOK_LAYOUT[i], vs[i])
    {
    }
  }

  lemma BookNumbers(b: BookSnapshot, j: nat)
    requires BookOk(b) && j < 4 * UI_BOOK_LEVELS
    ensures BookValues(b)[6 + j] == Number(LevelNumbers(b.bids, b.asks)[j])
  {
  }

  /** Where in a book's values a level lies, by side. */
  lemma LevelsOfValues(vs: seq<Value>, k: nat)
    requires AllFit(BOOK_LAYOUT, vs) && k < UI_BOOK_LEVELS
    ensures var low, high := 6 + 2 * k, 6 + 2 * UI_BOOK_LEVELS + 2 * k;
            && vs[low].Number? && vs[low + 1].Number? && vs[high].Number? && vs[high + 1].Number?
            && BookOf(vs).bids[k] == WireLevel(vs[low].n, vs[low + 1].n)
            && BookOf(vs).asks[k] == WireLevel(vs[high].n, vs[high + 1].n)
  {
  }

  lemma BookLevelReturns(b: BookSnapshot, k: nat)
    requires BookOk(b) && AllFit(BOOK_LAYOUT, BookValues(b)) && k < UI_BOOK_LEVELS
    ensures BookOf(BookValues(b)).bids[k] == b.bids[k] && BookOf(BookValues(b)).asks[k] == b.asks[k]
  {
    hide LevelNumbers, BookValues, BookOf, AllFit, Fits;
    var half := 2 * UI_BOOK_LEVELS;
    LevelsOfValues(BookValues(b), k);
    BookNumbers(b, 2 * k);
    BookNumbers(b, 2 * k + 1);
    BookNumbers(b, half + 2 * k);
    BookNumbers(b, half + 2 * k + 1);
    LevelsInNumbers(b.bids, b.asks, k);
  }

  lemma BookLevelsReturn(b: BookSnapshot)
    requires BookOk(b) && AllFit(BOOK_LAYOUT, BookValues(b))
    ensures BookOf(BookValues(b)).bids == b.bids && BookOf(BookValues(b)).asks == b.asks
  {
    hide LevelNumbers, BookValues, BookOf, AllFit;
    var back := BookOf(BookValues(b));
    forall k | 0 <= k < UI_BOOK_LEVELS
      ensures back.bids[k] == b.bids[k] && back.asks[k] == b.asks[k]
    {
      BookLevelReturns(b, k);
    }
  }

  lemma BookHeaderReturns(b: BookSnapshot)
    requires BookOk(b) && AllFit(BOOK_LAYOUT, BookValues(b))
    ensures BookOf(BookValues(b)).(bids := b.bids, asks := b.asks) == b
  {
  }

  lemma BookFits(b: BookSnapshot)
    requires BookOk(b)
    ensures AllFit(BOOK_LAYOUT, BookValues(b)) && BookOf(BookValues(b)) == b
  {
    hide AllFit, BookValues, BookOf;
    BookValuesFit(b);
    BookLevelsReturn(b);
    BookHeaderReturns(b);
  }

  ghost predicate PayloadOk(p: LinkPayload) {
    |p.words| == LINK_MAX_FIELDS && 0 <= p.count <= LINK_MAX_FIELDS
  }

  function PayloadValues(p: LinkPayload): seq<Value> {
    [Number(p.schemaHash), Number(p.eventTs), Number(p.count)] + Numbers(p.words)
  }

  function PayloadOf(vs: seq<Value>): (p: LinkPayload)
    requires AllFit(PAYLOAD_LAYOUT, vs)
    ensures PayloadOk(p)
  {
    Pow256Values();
    assert forall i :: 3 <= i < |PAYLOAD_LAYOUT| ==> PAYLOAD_LAYOUT[i] == Unsigned(8);
    LinkPayload(vs[0].n, vs[1].n, vs[2].n, seq(LINK_MAX_FIELDS, i requires 0 <= i < LINK_MAX_FIELDS => vs[3 + i].n))
  }

  lemma PayloadFits(p: LinkPayload)
    requires PayloadOk(p)
    ensures AllFit(PAYLOAD_LAYOUT, PayloadValues(p)) && PayloadOf(PayloadValues(p)) == p
  {
  }

  // ---------------------------------------------------------------- datagrams

  /** What the program's own constructors build: bodies with zeroed tails, on the topic they belong to. */
  ghost predicate WellFormedBody(body: LinkBody) {
    match body
    case SubscribeBody(s) => TopicSetOk(s.topics)
    case BookBody(b) => BookOk(b)
    case EventBody(event) => Feed.HoldAll(Feed.EVENT_SHAPES, event)
    case InstrumentBody(i) => NameOk(i.display) && NameOk(i.baseName) && NameOk(i.quoteName)
    case FeatureBody(f) => NameOk(f.name)
    case LifecycleBody(_) => true
    case HistoryBody(history) => Feed.HoldAll(Feed.HISTORY_SHAPES, history)
    case PayloadBody(p) => PayloadOk(p)
  }

  ghost predicate WellFormed(d: LinkDatagram) {
    |d.envelope.mac| == LINK_MAC_LEN && WellFormedBody(d.body) && BelongsOn(d.body, d.envelope.topic)
  }

  function BodyValues(body: LinkBody): seq<Value>
    requires WellFormedBody(body)
  {
    match body
    case SubscribeBody(s) => SubscribeValues(s)
    case BookBody(b) => BookValues(b)
    case EventBody(event) => [Raw(Feed.WriteAll(Feed.EVENT_SHAPES, event))]
    case InstrumentBody(i) => InstrumentValues(i)
    case FeatureBody(f) => FeatureValues(f)
    case LifecycleBody(r) => LifecycleValues(r)
    case HistoryBody(history) => [Raw(Feed.WriteAll(Feed.HISTORY_SHAPES, history))]
    case PayloadBody(p) => PayloadValues(p)
  }

  lemma BlockHolds(length: nat, vs: seq<Value>)
    requires AllFit([Block(length)], vs)
    ensures |vs| == 1 && vs[0].Raw? && |vs[0].raw| == length
  {
    assert Fits([Block(length)][0], vs[0]);
  }

  function EventOf(vs: seq<Value>): Result<LinkBody, DecodeError>
    requires AllFit([Block(EVENT_BODY_LEN)], vs)
  {
    BlockHolds(EVENT_BODY_LEN, vs);
    Feed.EventSpan();
    match Feed.ReadAll(Feed.EVENT_SHAPES, vs[0].raw)
    case Err(error) => Err(error)
    case Ok(event) => Ok(EventBody(event))
  }

  function HistoryOf(vs: seq<Value>): Result<LinkBody, DecodeError>
    requires AllFit([Block(HISTORY_BODY_LEN)], vs)
  {
    BlockHolds(HISTORY_BODY_LEN, vs);
    Feed.HistorySpan();
    match Feed.ReadAll(Feed.HISTORY_SHAPES, vs[0].raw)
    case Err(error) => Err(error)
    case Ok(history) => Ok(HistoryBody(history))
  }

  /** The feed's bodies can still be refused once their bytes are in hand. */
  function BodyOf(topic: U16, vs: seq<Value>): Result<LinkBody, DecodeError>
    requires TopicLayout(topic).Some? && AllFit(TopicLayout(topic).value, vs)
  {
    if topic == SUBSCRIBE then Ok(SubscribeBody(SubscribeOf(vs)))
    else if topic == BOOKS then Ok(BookBody(BookOf(vs)))
    else if topic == EVENTS then EventOf(vs)
    else if topic == CATALOG_INSTRUMENTS then Ok(InstrumentBody(InstrumentOf(vs)))
    else if topic == CATALOG_FEATURES then Ok(FeatureBody(FeatureOf(vs)))
    else if topic == LIFECYCLE then Ok(LifecycleBody(LifecycleOf(vs)))
    else if topic == HISTORY then HistoryOf(vs)
    else Ok(PayloadBody(PayloadOf(vs)))
  }

  /** An event, whatever its kind, and the samples of a history chunk come back from the bytes they went out as. */
  lemma FeedFits(event: seq<Feed.Content>, history: seq<Feed.Content>)
    ensures Feed.HoldAll(Feed.EVENT_SHAPES, event) ==>
              var vs := [Raw(Feed.WriteAll(Feed.EVENT_SHAPES, event))];
              AllFit([Block(EVENT_BODY_LEN)], vs) && EventOf(vs) == Ok(EventBody(event))
    ensures Feed.HoldAll(Feed.HISTORY_SHAPES, history) ==>
              var vs := [Raw(Feed.WriteAll(Feed.HISTORY_SHAPES, history))];
              AllFit([Block(HISTORY_BODY_LEN)], vs) && HistoryOf(vs) == Ok(HistoryBody(history))
  {
    hide Feed.HoldAll, Feed.WriteAll, Feed.ReadAll, Feed.SpanAll;
    Feed.EventSpan();
    Feed.HistorySpan();
    if Feed.HoldAll(Feed.EVENT_SHAPES, event) {
      Feed.AllRoundTrip(Feed.EVENT_SHAPES, event);
    }
    if Feed.HoldAll(Feed.HISTORY_SHAPES, history) {
      Feed.AllRoundTrip(Feed.HISTORY_SHAPES, history);
    }
  }

  lemma BodyFits(body: LinkBody, topic: U16)
    requires WellFormedBody(body) && BelongsOn(body, topic)
    ensures TopicLayout(topic).Some? && AllFit(TopicLayout(topic).value, BodyValues(body))
    ensures BodyOf(topic, BodyValues(body)) == Ok(body)
  {
    hide SubscribeValues, SubscribeOf, BookValues, BookOf, InstrumentValues, InstrumentOf, FeatureValues, FeatureOf,
      LifecycleValues, LifecycleOf, PayloadValues, PayloadOf, EventOf, HistoryOf, AllFit, Feed.HoldAll, Feed.WriteAll;
    match body
    case SubscribeBody(s) => SubscribeFits(s);
    case BookBody(b) => BookFits(b);
    case EventBody(event) => FeedFits(event, []);
    case InstrumentBody(i) => InstrumentFits(i);
    case FeatureBody(f) => FeatureFits(f);
    case LifecycleBody(r) => LifecycleFits(r);
    case HistoryBody(history) => FeedFits([], history);
    case PayloadBody(p) => PayloadFits(p);
  }

  lemma FeedIsWellFormed(vs: seq<Value>)
    ensures AllFit([Block(EVENT_BODY_LEN)], vs) && EventOf(vs).Ok? ==>
              EventOf(vs).value.EventBody? && WellFormedBody(EventOf(vs).value)
    ensures AllFit([Block(HISTORY_BODY_LEN)], vs) && HistoryOf(vs).Ok? ==>
              HistoryOf(vs).value.HistoryBody? && WellFormedBody(HistoryOf(vs).value)
  {
    hide Feed.HoldAll, Feed.ReadAll, Feed.SpanAll;
    Feed.EventSpan();
    Feed.HistorySpan();
    if AllFit([Block(EVENT_BODY_LEN)], vs) && EventOf(vs).Ok? {
      BlockHolds(EVENT_BODY_LEN, vs);
      Feed.ReadAllHolds(Feed.EVENT_SHAPES, vs[0].raw);
    }
    if AllFit([Block(HISTORY_BODY_LEN)], vs) && HistoryOf(vs).Ok? {
      BlockHolds(HISTORY_BODY_LEN, vs);
      Feed.ReadAllHolds(Feed.HISTORY_SHAPES, vs[0].raw);
    }
  }

  lemma NamesAreOk(vs: seq<Value>)
    ensures AllFit(INSTRUMENT_LAYOUT, vs) ==> WellFormedBody(InstrumentBody(InstrumentOf(vs)))
    ensures AllFit(FEATURE_LAYOUT, vs) ==> WellFormedBody(FeatureBody(FeatureOf(vs)))
  {
    if AllFit(INSTRUMENT_LAYOUT, vs) {
      assert Fits(INSTRUMENT_LAYOUT[3], vs[3]) && Fits(INSTRUMENT_LAYOUT[9], vs[9])
             && Fits(INSTRUMENT_LAYOUT[10], vs[10]);
    }
    if AllFit(FEATURE_LAYOUT, vs) {
      assert Fits(FEATURE_LAYOUT[3], vs[3]);
    }
  }

  lemma BodyIsWellFormed(topic: U16, vs: seq<Value>)
    requires TopicLayout(topic).Some? && AllFit(TopicLayout(topic).value, vs) && BodyOf(topic, vs).Ok?
    ensures WellFormedBody(BodyOf(topic, vs).value) && BelongsOn(BodyOf(topic, vs).value, topic)
  {
    hide SubscribeOf, BookOf, InstrumentOf, FeatureOf, LifecycleOf, PayloadOf, EventOf, HistoryOf, AllFit,
      Feed.HoldAll, NameOk;
    FeedIsWellFormed(vs);
    NamesAreOk(vs);
  }

  function EncodeDatagram(d: LinkDatagram): seq<U8>
    requires WellFormed(d)
  {
    EnvelopeFits(d.envelope);
    BodyFits(d.body, d.envelope.topic);
    WriteRecord(ENVELOPE_LAYOUT, EnvelopeValues(d.envelope))
    + WriteRecord(TopicLayout(d.envelope.topic).value, BodyValues(d.body))
  }

  /** The first of the four stamps that does not match names the refusal. */
  function Check(guard: FrameGuard, e: Envelope): Option<DecodeError> {
    if e.magic != LINK_MAGIC then Some(MagicMismatch(e.magic))
    else if e.version != LINK_VERSION then Some(VersionMismatch(e.version))
    else if e.tokenHash != guard.tokenHash then Some(TokenMismatch(e.tokenHash))
    else if e.strategyHash != guard.strategyHash then Some(StrategyMismatch(e.strategyHash))
    else None
  }

  /** A strategy payload's schema is looked at before the rest of its body. */
  function ReadBody(topic: U16, bytes: seq<U8>, guard: FrameGuard): Result<LinkBody, DecodeError>
    requires TopicLayout(topic).Some? && |bytes| == TopicBodyLen(topic).value
  {
    TopicWidth(topic);
    var layout := TopicLayout(topic).value;
    var schema := if IsStrategyTopic(topic) then FromLittleEndian(bytes[..8]) else guard.schemaHash;
    if schema != guard.schemaHash then Err(SchemaMismatch(schema))
    else
      match ReadRecord(layout, bytes)
      case Err(error) => Err(error)
      case Ok(values) =>
        ReadRecordFits(layout, bytes);
        BodyOf(topic, values)
  }

  function ReadEnvelope(bytes: seq<U8>): Envelope
    requires |bytes| == ENVELOPE_LEN
  {
    EnvelopeWidth();
    EnvelopeAlwaysReads(bytes);
    ReadRecordFits(ENVELOPE_LAYOUT, bytes);
    EnvelopeOf(ReadRecord(ENVELOPE_LAYOUT, bytes).value)
  }

  function DecodeDatagram(bytes: seq<U8>, guard: FrameGuard): Result<LinkDatagram, DecodeError> {
    if |bytes| < ENVELOPE_LEN then Err(Truncated(|bytes|))
    else
      var envelope := ReadEnvelope(bytes[..ENVELOPE_LEN]);
      var refused := Check(guard, envelope);
      if refused.Some? then Err(refused.value)
      else
        var bodyLen := TopicBodyLen(envelope.topic);
        if bodyLen.None? then Err(UnknownTopic(envelope.topic))
        else if |bytes| != ENVELOPE_LEN + bodyLen.value then Err(LengthMismatch(ENVELOPE_LEN + bodyLen.value, |bytes|))
        else
          TopicWidth(envelope.topic);
          match ReadBody(envelope.topic, bytes[ENVELOPE_LEN..], guard)
          case Err(error) => Err(error)
          case Ok(body) => Ok(LinkDatagram(envelope, body))
  }

  /** Kinds whose every byte pattern is a value. */
  predicate AlwaysReads(kind: Kind) {
    kind.Unsigned? || kind.Signed64? || kind.Block?
  }

  lemma {:induction false} PlainLayoutReads(layout: Layout, bytes: seq<U8>)
    requires |bytes| == LayoutWidth(layout) && forall i :: 0 <= i < |layout| ==> AlwaysReads(layout[i])
    ensures ReadRecord(layout, bytes).Ok?
  {
    if layout != [] {
      PlainLayoutReads(layout[1..], bytes[Width(layout[0])..]);
    }
  }

  lemma EnvelopeAlwaysReads(bytes: seq<U8>)
    requires |bytes| == LayoutWidth(ENVELOPE_LAYOUT)
    ensures ReadRecord(ENVELOPE_LAYOUT, bytes).Ok?
  {
    hide LayoutWidth, ReadRecord;
    PlainLayoutReads(ENVELOPE_LAYOUT, bytes);
  }

  // ---------------------------------------------------------------- the theorems

  ghost predicate Meant(d: LinkDatagram, guard: FrameGuard) {
    && Check(guard, d.envelope).None?
    && (d.body.PayloadBody? ==> d.body.payload.schemaHash == guard.schemaHash)
  }

  lemma PayloadSchemaLeads(p: LinkPayload)
    requires PayloadOk(p)
    ensures AllFit(PAYLOAD_LAYOUT, PayloadValues(p))
    ensures var bytes := WriteRecord(PAYLOAD_LAYOUT, PayloadValues(p));
            |bytes| >= 8 && FromLittleEndian(bytes[..8]) == p.schemaHash
  {
    PayloadFits(p);
    PayloadWidth();
    Pow256Values();
    var bytes := WriteRecord(PAYLOAD_LAYOUT, PayloadValues(p));
    assert Fits(PAYLOAD_LAYOUT[0], PayloadValues(p)[0]);
    assert bytes[..8] == LittleEndian(8, p.schemaHash);
    NumberRoundTrip(8, p.schemaHash);
  }

  /** Every well-formed datagram meant for this guard survives the wire unchanged. */
  lemma DatagramRoundTrip(d: LinkDatagram, guard: FrameGuard)
    requires WellFormed(d) && Meant(d, guard)
    ensures DecodeDatagram(EncodeDatagram(d), guard) == Ok(d)
  {
    hide WriteRecord, ReadRecord, BodyOf, BodyValues, EnvelopeValues, EnvelopeOf, LayoutWidth, TopicLayout,
      TopicBodyLen, FromLittleEndian, WellFormedBody, AllFit;
    var topic := d.envelope.topic;
    EnvelopeFits(d.envelope);
    BodyFits(d.body, topic);
    EnvelopeWidth();
    TopicWidth(topic);
    var head := WriteRecord(ENVELOPE_LAYOUT, EnvelopeValues(d.envelope));
    var tail := WriteRecord(TopicLayout(topic).value, BodyValues(d.body));
    var bytes := EncodeDatagram(d);
    assert bytes[..ENVELOPE_LEN] == head && bytes[ENVELOPE_LEN..] == tail;
    RecordRoundTrip(ENVELOPE_LAYOUT, EnvelopeValues(d.envelope));
    RecordRoundTrip(TopicLayout(topic).value, BodyValues(d.body));
    BodySchema(d, guard);
  }

  lemma BodySchema(d: LinkDatagram, guard: FrameGuard)
    requires WellFormed(d) && Meant(d, guard)
    ensures TopicLayout(d.envelope.topic).Some? && AllFit(TopicLayout(d.envelope.topic).value, BodyValues(d.body))
    ensures var bytes := WriteRecord(TopicLayout(d.envelope.topic).value, BodyValues(d.body));
            IsStrategyTopic(d.envelope.topic) ==> |bytes| >= 8 && FromLittleEndian(bytes[..8]) == guard.schemaHash
  {
    BodyFits(d.body, d.envelope.topic);
    if IsStrategyTopic(d.envelope.topic) {
      hide WriteRecord, FromLittleEndian, PayloadValues;
      PayloadSchemaLeads(d.body.payload);
    }
  }

  /** Whatever decodes was meant for this guard, is well formed, and is exactly as long as what it encodes to. */
  lemma DecodedIsWellFormed(bytes: seq<U8>, guard: FrameGuard)
    requires DecodeDatagram(bytes, guard).Ok?
    ensures var d := DecodeDatagram(bytes, guard).value;
            WellFormed(d) && Meant(d, guard) && |EncodeDatagram(d)| == |bytes|
  {
    hide WriteRecord, ReadRecord, ReadBody, ReadEnvelope, BodyValues, EnvelopeValues, LayoutWidth, TopicLayout,
      TopicBodyLen, WellFormedBody, AllFit, BelongsOn;
    var d := DecodeDatagram(bytes, guard).value;
    TopicWidth(d.envelope.topic);
    EnvelopeWidth();
    ReadBodyIsWellFormed(d.envelope.topic, bytes[ENVELOPE_LEN..], guard);
    MacIsWhole(bytes[..ENVELOPE_LEN]);
  }

  lemma ReadBodyIsWellFormed(topic: U16, bytes: seq<U8>, guard: FrameGuard)
    requires TopicLayout(topic).Some? && |bytes| == TopicBodyLen(topic).value && ReadBody(topic, bytes, guard).Ok?
    ensures var body := ReadBody(topic, bytes, guard).value;
            && WellFormedBody(body) && BelongsOn(body, topic)
            && (body.PayloadBody? ==> body.payload.schemaHash == guard.schemaHash)
  {
    TopicWidth(topic);
    var layout := TopicLayout(topic).value;
    ReadRecordFits(layout, bytes);
    BodyIsWellFormed(topic, ReadRecord(layout, bytes).value);
    if IsStrategyTopic(topic) {
      SchemaIsFirst(bytes);
    }
    hide ReadRecord, WellFormedBody, AllFit, EventOf, HistoryOf, SubscribeOf, BookOf, InstrumentOf, FeatureOf,
      LifecycleOf, LayoutWidth, FromLittleEndian;
  }

  lemma MacIsWhole(bytes: seq<U8>)
    requires |bytes| == ENVELOPE_LEN
    ensures |ReadEnvelope(bytes).mac| == LINK_MAC_LEN
  {
    EnvelopeWidth();
    EnvelopeAlwaysReads(bytes);
    ReadRecordFits(ENVELOPE_LAYOUT, bytes);
    assert Fits(ENVELOPE_LAYOUT[8], ReadRecord(ENVELOPE_LAYOUT, bytes).value[8]);
  }

  lemma SchemaIsFirst(bytes: seq<U8>)
    requires |bytes| == LayoutWidth(PAYLOAD_LAYOUT) && ReadRecord(PAYLOAD_LAYOUT, bytes).Ok?
    ensures |bytes| >= 8 && ReadRecord(PAYLOAD_LAYOUT, bytes).value[0] == Number(FromLittleEndian(bytes[..8]))
  {
  }

  /** Decoding reaches a normal form: what was decoded encodes to bytes that decode to it again, even when
      the original bytes carried garbage in ignored places. */
  lemma ReencodingIsNormal(bytes: seq<U8>, guard: FrameGuard)
    requires DecodeDatagram(bytes, guard).Ok?
    ensures WellFormed(DecodeDatagram(bytes, guard).value)
    ensures DecodeDatagram(EncodeDatagram(DecodeDatagram(bytes, guard).value), guard) == DecodeDatagram(bytes, guard)
  {
    hide DecodeDatagram, EncodeDatagram, WellFormed, Meant;
    DecodedIsWellFormed(bytes, guard);
    DatagramRoundTrip(DecodeDatagram(bytes, guard).value, guard);
  }

  /** So no two datagrams share an encoding. */
  lemma EncodingIsInjective(a: LinkDatagram, b: LinkDatagram, guard: FrameGuard)
    requires WellFormed(a) && Meant(a, guard) && WellFormed(b) && Meant(b, guard)
    requires EncodeDatagram(a) == EncodeDatagram(b)
    ensures a == b
  {
    hide DecodeDatagram, EncodeDatagram;
    DatagramRoundTrip(a, guard);
    DatagramRoundTrip(b, guard);
  }

  lemma StrategyBodyLen(topic: U16)
    requires IsStrategyTopic(topic)
    ensures TopicBodyLen(topic) == Some(PAYLOAD_BODY_LEN)
  {
  }

  // ---------------------------------------------------------------- where reading stops

  /** A body's own bytes: an event's end with its own fields, short of the padding; every other body is read whole. */
  function BodyEnd(topic: U16, body: LinkBody): nat {
    if body.EventBody? then Feed.EventEnd(body.event)
    else match TopicBodyLen(topic) case None => 0 case Some(length) => length
  }

  lemma BlockReads(length: nat, bytes: seq<U8>)
    requires |bytes| == length
    ensures LayoutWidth([Block(length)]) == length && ReadRecord([Block(length)], bytes) == Ok([Raw(bytes)])
  {
    var layout := [Block(length)];
    assert layout[1..] == [] && bytes[..length] == bytes && bytes[length..] == [];
    assert LayoutWidth(layout[1..]) == 0 && ReadRecord(layout[1..], bytes[length..]) == Ok([]);
    assert [Raw(bytes)] + [] == [Raw(bytes)];
  }

  lemma EventBodyReads(bytes: seq<U8>, guard: FrameGuard)
    requires |bytes| == EVENT_BODY_LEN
    ensures TopicLayout(EVENTS).Some? && TopicBodyLen(EVENTS) == Some(EVENT_BODY_LEN)
    ensures Feed.Span(Feed.EVENT) == EVENT_BODY_LEN
    ensures ReadBody(EVENTS, bytes, guard)
         == match Feed.ReadShape(Feed.EVENT, bytes)
            case Err(error) => Err(error)
            case Ok(event) => Ok(EventBody([event]))
  {
    hide LayoutWidth, ReadRecord, Feed.Span, Feed.SpanAll, Feed.ReadShape, Feed.ReadAll;
    BlockReads(EVENT_BODY_LEN, bytes);
    Feed.EventReads(bytes);
  }

  lemma HistoryBodyReads(bytes: seq<U8>, guard: FrameGuard)
    requires |bytes| == HISTORY_BODY_LEN
    ensures TopicLayout(HISTORY).Some? && TopicBodyLen(HISTORY) == Some(HISTORY_BODY_LEN)
    ensures Feed.SpanAll(Feed.HISTORY_SHAPES) == HISTORY_BODY_LEN
    ensures ReadBody(HISTORY, bytes, guard)
         == match Feed.ReadAll(Feed.HISTORY_SHAPES, bytes)
            case Err(error) => Err(error)
            case Ok(history) => Ok(HistoryBody(history))
  {
    hide LayoutWidth, ReadRecord, Feed.SpanAll, Feed.ReadAll;
    BlockReads(HISTORY_BODY_LEN, bytes);
    Feed.HistorySpan();
  }

  /** Reading stops inside the body, and at its last byte exactly when it is no event or the widest one. */
  lemma BodyEnds(topic: U16, bytes: seq<U8>, guard: FrameGuard)
    requires TopicLayout(topic).Some? && |bytes| == TopicBodyLen(topic).value && ReadBody(topic, bytes, guard).Ok?
    ensures var body := ReadBody(topic, bytes, guard).value;
            && (body.EventBody? ==> topic == EVENTS && |body.event| == 1 && body.event[0].Chosen?)
            && BodyEnd(topic, body) <= |bytes|
            && (BodyEnd(topic, body) == |bytes| <==>
                !body.EventBody? || body.event[0].tag == Feed.ORDER_SNAPSHOT_TAG)
  {
    hide ReadBody, TopicLayout, Feed.Span, Feed.SpanAll, Feed.ReadShape, Feed.ReadAll, Feed.EventEnd, WellFormedBody;
    ReadBodyIsWellFormed(topic, bytes, guard);
    if ReadBody(topic, bytes, guard).value.EventBody? {
      EventBodyReads(bytes, guard);
      Feed.EventReads(bytes);
      Feed.EventEnds(bytes);
    }
  }

  function DatagramEnd(d: LinkDatagram): nat {
    ENVELOPE_LEN + BodyEnd(d.envelope.topic, d.body)
  }

  /** A datagram that decodes is read to its last byte exactly when it is no event or an order snapshot; any other
      event leaves its padding unread. */
  lemma DecodeStopsAtTheEnd(bytes: seq<U8>, guard: FrameGuard)
    requires DecodeDatagram(bytes, guard).Ok?
    ensures var d := DecodeDatagram(bytes, guard).value;
            && (d.body.EventBody? ==> |d.body.event| == 1 && d.body.event[0].Chosen?)
            && DatagramEnd(d) <= |bytes|
            && (DatagramEnd(d) == |bytes| <==> !d.body.EventBody? || d.body.event[0].tag == Feed.ORDER_SNAPSHOT_TAG)
  {
    hide ReadBody, ReadEnvelope, BodyEnd, TopicLayout, TopicBodyLen;
    var topic := DecodeDatagram(bytes, guard).value.envelope.topic;
    TopicWidth(topic);
    BodyEnds(topic, bytes[ENVELOPE_LEN..], guard);
  }

  /** And whatever lies past that end means nothing: a datagram as long that agrees up to it decodes the same. */
  lemma PastTheEndMeansNothing(a: seq<U8>, b: seq<U8>, guard: FrameGuard, d: LinkDatagram)
    requires |a| == |b| && DecodeDatagram(a, guard) == Ok(d) && DatagramEnd(d) <= |a|
    requires a[..DatagramEnd(d)] == b[..DatagramEnd(d)]
    ensures DecodeDatagram(b, guard) == Ok(d)
  {
    hide ReadBody, ReadEnvelope, BodyEnd, TopicLayout, TopicBodyLen;
    var end, topic := DatagramEnd(d), d.envelope.topic;
    TopicWidth(topic);
    Feed.SliceOfPrefix(a, end, 0, ENVELOPE_LEN);
    Feed.SliceOfPrefix(b, end, 0, ENVELOPE_LEN);
    assert a[..ENVELOPE_LEN] == a[0..ENVELOPE_LEN] && b[..ENVELOPE_LEN] == b[0..ENVELOPE_LEN];
    Feed.SliceOfPrefix(a, end, ENVELOPE_LEN, end);
    Feed.SliceOfPrefix(b, end, ENVELOPE_LEN, end);
    var x, y := a[ENVELOPE_LEN..], b[ENVELOPE_LEN..];
    assert x[..end - ENVELOPE_LEN] == a[ENVELOPE_LEN..end] && y[..end - ENVELOPE_LEN] == b[ENVELOPE_LEN..end];
    BodyPaddingMeansNothing(topic, x, y, guard);
  }

  lemma BodyPaddingMeansNothing(topic: U16, a: seq<U8>, b: seq<U8>, guard: FrameGuard)
    requires TopicLayout(topic).Some? && |a| == |b| == TopicBodyLen(topic).value && ReadBody(topic, a, guard).Ok?
    requires var end := BodyEnd(topic, ReadBody(topic, a, guard).value);
             end <= |a| && a[..end] == b[..end]
    ensures ReadBody(topic, b, guard) == ReadBody(topic, a, guard)
  {
    hide ReadBody, TopicLayout, Feed.Span, Feed.SpanAll, Feed.ReadShape, Feed.ReadAll, Feed.EventEnd;
    BodyEnds(topic, a, guard);
    if topic == EVENTS && ReadBody(topic, a, guard).value.EventBody? {
      EventBodyReads(a, guard);
      EventBodyReads(b, guard);
      Feed.EventPaddingIsNotRead(a, b);
    } else {
      assert a[..|a|] == a && b[..|b|] == b;
    }
  }

  // ---------------------------------------------------------------- encode and decode over cursors

  /** Fills the front of the caller's buffer and answers how much of it is the datagram. */
  method Encode(d: LinkDatagram, buffer: array<U8>) returns (written: nat)
    requires WellFormed(d) && buffer.Length == LINK_MAX_DATAGRAM
    modifies buffer
    ensures written == |EncodeDatagram(d)| <= LINK_MAX_DATAGRAM
    ensures buffer[..] == EncodeDatagram(d) + old(buffer[written..])
  {
    hide WriteRecord, BodyValues, EnvelopeValues, LayoutWidth, TopicLayout, TopicBodyLen, WellFormedBody, AllFit;
    var topic := d.envelope.topic;
    EnvelopeFits(d.envelope);
    BodyFits(d.body, topic);
    EnvelopeWidth();
    TopicWidth(topic);
    ghost var before := buffer[..];
    var writer := new ByteWriter(buffer);
    writer.Write(ENVELOPE_LAYOUT, EnvelopeValues(d.envelope));
    ghost var head := WriteRecord(ENVELOPE_LAYOUT, EnvelopeValues(d.envelope));
    ghost var tail := WriteRecord(TopicLayout(topic).value, BodyValues(d.body));
    assert buffer[..] == head + before[ENVELOPE_LEN..];
    assert buffer[..ENVELOPE_LEN] == head && buffer[ENVELOPE_LEN + |tail|..] == before[ENVELOPE_LEN + |tail|..];
    writer.Write(TopicLayout(topic).value, BodyValues(d.body));
    written := writer.at;
  }

  /** An event is read in place up to its own end, a history chunk sample by sample; a strategy payload's schema is
      looked at before the rest of it. */
  method TakeBody(reader: ByteReader, topic: U16, guard: FrameGuard) returns (r: Result<LinkBody, DecodeError>)
    requires TopicLayout(topic).Some? && reader.at <= |reader.bytes| == reader.at + TopicBodyLen(topic).value
    modifies reader`at
    ensures r == ReadBody(topic, reader.bytes[old(reader.at)..], guard)
    ensures reader.at <= |reader.bytes| && (r.Ok? ==> reader.at == old(reader.at) + BodyEnd(topic, r.value))
  {
    hide ReadRecord, BodyOf, LayoutWidth, TopicLayout, TopicBodyLen, AllFit, Feed.Span, Feed.SpanAll, Feed.ReadShape,
      Feed.ReadAll;
    ghost var body, start := reader.bytes[reader.at..], reader.at;
    TopicWidth(topic);
    FeedBodyLens();
    if topic == EVENTS {
      EventBodyReads(body, guard);
      assert body == reader.bytes[start..start + EVENT_BODY_LEN];
      var event := Feed.TakeChoice(reader, Feed.EVENT);
      return if event.Err? then Err(event.error) else Ok(EventBody([event.value]));
    }
    if topic == HISTORY {
      HistoryBodyReads(body, guard);
      assert body == reader.bytes[start..start + HISTORY_BODY_LEN];
      var history := Feed.TakeAll(reader, Feed.HISTORY_SHAPES);
      return if history.Err? then Err(history.error) else Ok(HistoryBody(history.value));
    }
    if IsStrategyTopic(topic) {
      StrategyBodyLen(topic);
      var schema := FromLittleEndian(reader.bytes[reader.at..][..8]);
      if schema != guard.schemaHash {
        return Err(SchemaMismatch(schema));
      }
    }
    var layout := TopicLayout(topic).value;
    assert body == reader.bytes[start..start + LayoutWidth(layout)];
    var values := reader.Read(layout);
    if values.Err? {
      return Err(values.error);
    }
    ReadRecordFits(layout, body);
    r := BodyOf(topic, values.value);
    if r.Ok? {
      RecordBodyIsWhole(topic, values.value);
    }
  }

  lemma FeedBodyLens()
    ensures TopicBodyLen(EVENTS) == Some(EVENT_BODY_LEN) && TopicBodyLen(HISTORY) == Some(HISTORY_BODY_LEN)
  {
  }

  lemma RecordBodyIsWhole(topic: U16, values: seq<Value>)
    requires topic != EVENTS && TopicLayout(topic).Some? && AllFit(TopicLayout(topic).value, values)
    requires BodyOf(topic, values).Ok?
    ensures BodyEnd(topic, BodyOf(topic, values).value) == TopicBodyLen(topic).value
  {
  }

  /** A body is read only after every guard has passed; on success the cursor stands where the datagram's own bytes
      end. */
  method Decode(bytes: seq<U8>, guard: FrameGuard) returns (result: Result<LinkDatagram, DecodeError>, consumed: nat)
    ensures result == DecodeDatagram(bytes, guard)
    ensures consumed <= |bytes| && (result.Ok? ==> consumed == DatagramEnd(result.value))
  {
    hide ReadRecord, ReadBody, EnvelopeOf, LayoutWidth, TopicLayout, TopicBodyLen, AllFit, BodyEnd;
    if |bytes| < ENVELOPE_LEN {
      return Err(Truncated(|bytes|)), 0;
    }
    EnvelopeWidth();
    EnvelopeAlwaysReads(bytes[..ENVELOPE_LEN]);
    ReadRecordFits(ENVELOPE_LAYOUT, bytes[..ENVELOPE_LEN]);
    var reader := new ByteReader(bytes);
    var head := reader.Read(ENVELOPE_LAYOUT);
    var envelope := EnvelopeOf(head.value);
    var refused := Check(guard, envelope);
    if refused.Some? {
      return Err(refused.value), reader.at;
    }
    var bodyLen := TopicBodyLen(envelope.topic);
    if bodyLen.None? {
      return Err(UnknownTopic(envelope.topic)), reader.at;
    }
    var expected := ENVELOPE_LEN + bodyLen.value;
    if |bytes| != expected {
      return Err(LengthMismatch(expected, |bytes|)), reader.at;
    }
    TopicWidth(envelope.topic);
    var body := TakeBody(reader, envelope.topic, guard);
    result := if body.Err? then Err(body.error) else Ok(LinkDatagram(envelope, body.value));
    consumed := reader.at;
  }
}
