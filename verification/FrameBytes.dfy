/** Where in a datagram each field lies (src/link/envelope.rs, src/link/control.rs, src/link/feed/mod.rs). */
module FrameBytes {
  import opened Common
  import opened Wire
  import opened WireBytes
  import Feed
  import FeedBytes
  import opened Frame

  /** A datagram is its envelope's fields and then its body's. */
  lemma DatagramIsLaidOut(d: LinkDatagram)
    requires WellFormed(d)
    ensures TopicLayout(d.envelope.topic).Some?
    ensures |EnvelopeValues(d.envelope)| == |ENVELOPE_LAYOUT|
    ensures |BodyValues(d.body)| == |TopicLayout(d.envelope.topic).value|
    ensures LaidOut(EncodeDatagram(d), 0, ENVELOPE_LAYOUT, EnvelopeValues(d.envelope))
    ensures LaidOut(EncodeDatagram(d), ENVELOPE_LEN, TopicLayout(d.envelope.topic).value, BodyValues(d.body))
  {
    hide LaidOut, WriteRecord, BodyValues, EnvelopeValues, TopicLayout, WellFormedBody, LayoutWidth;
    EnvelopeFits(d.envelope);
    BodyFits(d.body, d.envelope.topic);
    EnvelopeWidth();
    var head := WriteRecord(ENVELOPE_LAYOUT, EnvelopeValues(d.envelope));
    var body := WriteRecord(TopicLayout(d.envelope.topic).value, BodyValues(d.body));
    RecordIsLaidOut(ENVELOPE_LAYOUT, EnvelopeValues(d.envelope));
    RecordIsLaidOut(TopicLayout(d.envelope.topic).value, BodyValues(d.body));
    LayoutMoves(head, 0, ENVELOPE_LAYOUT, EnvelopeValues(d.envelope), [], body);
    LayoutMoves(body, 0, TopicLayout(d.envelope.topic).value, BodyValues(d.body), head, []);
    assert [] + head + body == head + body && head + body + [] == head + body;
  }

  /** A present value behind a one, an absent one behind a zero. */
  ghost predicate OptionAt(bytes: seq<U8>, at: nat, v: Option<I64>) {
    && at < |bytes| && bytes[at] == (if v.Some? then 1 else 0)
    && NumberAt(bytes, at + 1, 8, if v.Some? then v.value else 0)
  }

  ghost predicate NameAt(bytes: seq<U8>, at: nat, name: WireName) {
    at + 33 <= |bytes| && bytes[at] == name.len && bytes[at + 1..at + 33] == name.bytes
  }

  ghost predicate ByteAt(bytes: seq<U8>, at: nat, value: int) {
    at < |bytes| && bytes[at] == value
  }

  // ---------------------------------------------------------------- the envelope

  ghost predicate EnvelopeAt(bytes: seq<U8>, e: Envelope) {
    && NumberAt(bytes, 0, 4, e.magic) && NumberAt(bytes, 4, 2, e.version) && NumberAt(bytes, 6, 2, e.topic)
    && NumberAt(bytes, 8, 8, e.tokenHash) && NumberAt(bytes, 16, 8, e.strategyHash)
    && NumberAt(bytes, 24, 8, e.senderTeHash) && NumberAt(bytes, 32, 8, e.bootTs) && NumberAt(bytes, 40, 8, e.seqNo)
    && 80 <= |bytes| && bytes[48..80] == e.mac
  }

  lemma EnvelopeFromLayout(bytes: seq<U8>, e: Envelope)
    requires LaidOut(bytes, 0, ENVELOPE_LAYOUT, EnvelopeValues(e))
    ensures EnvelopeAt(bytes, e)
  {
    hide LaidOut, NumberAt;
    var layout, values := ENVELOPE_LAYOUT, EnvelopeValues(e);
    LaidOutInThrees(bytes, 0, layout, values);
    LaidOutInThrees(bytes, 8, layout[3..], values[3..]);
    LaidOutInThrees(bytes, 32, layout[3..][3..], values[3..][3..]);
  }

  /** Every envelope field lies at its place in what is sent. */
  lemma EnvelopeOnTheWire(d: LinkDatagram)
    requires WellFormed(d)
    ensures EnvelopeAt(EncodeDatagram(d), d.envelope)
  {
    hide EnvelopeAt, LaidOut, EncodeDatagram;
    DatagramIsLaidOut(d);
    EnvelopeFromLayout(EncodeDatagram(d), d.envelope);
  }

  /** And is read from there, whoever sent it. */
  lemma EnvelopeIsReadInPlace(bytes: seq<U8>)
    requires |bytes| == ENVELOPE_LEN
    ensures EnvelopeAt(bytes, ReadEnvelope(bytes))
  {
    hide LaidOut, EnvelopeAt, LayoutWidth, ReadRecord;
    EnvelopeWidth();
    EnvelopeAlwaysReads(bytes);
    ReadRecordFits(ENVELOPE_LAYOUT, bytes);
    RecordsReadWhatIsThere(ENVELOPE_LAYOUT, bytes);
    ValuesOfEnvelope(ReadRecord(ENVELOPE_LAYOUT, bytes).value);
    EnvelopeFromLayout(bytes, ReadEnvelope(bytes));
  }

  lemma ValuesOfEnvelope(vs: seq<Value>)
    requires AllFit(ENVELOPE_LAYOUT, vs)
    ensures EnvelopeValues(EnvelopeOf(vs)) == vs
  {
    assert forall i :: 0 <= i < 9 ==> Fits(ENVELOPE_LAYOUT[i], vs[i]);
  }

  // ---------------------------------------------------------------- the bodies of fixed fields

  lemma FeatureFromLayout(bytes: seq<U8>, f: CatalogFeature)
    requires LaidOut(bytes, 80, FEATURE_LAYOUT, FeatureValues(f))
    ensures NumberAt(bytes, 80, 8, f.catalogTs) && NumberAt(bytes, 88, 2, f.totalCount)
    ensures NumberAt(bytes, 90, 2, f.feature) && NameAt(bytes, 92, f.name)
  {
    hide LaidOut, NumberAt;
    var layout, values := FEATURE_LAYOUT, FeatureValues(f);
    LaidOutInThrees(bytes, 80, layout, values);
    LaidOutFirst(bytes, 92, layout[3..], values[3..]);
  }

  lemma LaidOutFirst(bytes: seq<U8>, at: nat, layout: Layout, values: seq<Value>)
    requires LaidOut(bytes, at, layout, values) && layout != [] && values != []
    ensures FieldAt(bytes, at, layout[0], values[0])
    ensures LaidOut(bytes, at + Width(layout[0]), layout[1..], values[1..])
  {
  }

  lemma FeatureOnTheWire(d: LinkDatagram)
    requires WellFormed(d) && d.body.FeatureBody?
    ensures var bytes, f := EncodeDatagram(d), d.body.feature;
            && NumberAt(bytes, 80, 8, f.catalogTs) && NumberAt(bytes, 88, 2, f.totalCount)
            && NumberAt(bytes, 90, 2, f.feature) && NameAt(bytes, 92, f.name)
  {
    hide LaidOut, EncodeDatagram, NumberAt, NameAt, FeatureValues;
    DatagramIsLaidOut(d);
    FeatureFromLayout(EncodeDatagram(d), d.body.feature);
  }

  ghost predicate InstrumentAt(bytes: seq<U8>, i: CatalogInstrument) {
    && NumberAt(bytes, 80, 8, i.catalogTs) && NumberAt(bytes, 88, 2, i.totalCount)
    && NumberAt(bytes, 90, 2, i.instrument)
    && NameAt(bytes, 92, i.display) && OptionAt(bytes, 125, i.tickSize) && OptionAt(bytes, 134, i.lotSize)
    && NumberAt(bytes, 143, 8, i.qtyScale) && NumberAt(bytes, 151, 2, i.baseAsset)
    && NumberAt(bytes, 153, 2, i.quoteAsset)
    && NameAt(bytes, 155, i.baseName) && NameAt(bytes, 188, i.quoteName)
  }

  lemma InstrumentFromLayout(bytes: seq<U8>, i: CatalogInstrument)
    requires LaidOut(bytes, 80, INSTRUMENT_LAYOUT, InstrumentValues(i))
    ensures InstrumentAt(bytes, i)
  {
    hide LaidOut, NumberAt;
    var layout, values := INSTRUMENT_LAYOUT, InstrumentValues(i);
    LaidOutInThrees(bytes, 80, layout, values);
    LaidOutInThrees(bytes, 92, layout[3..], values[3..]);
    LaidOutInThrees(bytes, 143, layout[3..][3..], values[3..][3..]);
    LaidOutFirst(bytes, 155, layout[3..][3..][3..], values[3..][3..][3..]);
    LaidOutFirst(bytes, 188, layout[3..][3..][3..][1..], values[3..][3..][3..][1..]);
  }

  lemma InstrumentOnTheWire(d: LinkDatagram)
    requires WellFormed(d) && d.body.InstrumentBody?
    ensures InstrumentAt(EncodeDatagram(d), d.body.instrument)
  {
    hide LaidOut, EncodeDatagram, InstrumentAt, InstrumentValues;
    DatagramIsLaidOut(d);
    InstrumentFromLayout(EncodeDatagram(d), d.body.instrument);
  }

  /** The numbers the program gives its enumerations; zero is none of them. */
  ghost predicate RunStateAt(bytes: seq<U8>, at: nat, state: RunState) {
    ByteAt(bytes, at, match state case Running => 1 case Idle => 2)
  }

  ghost predicate LifecycleAt(bytes: seq<U8>, r: LifecycleReport) {
    && ByteAt(bytes, 80, match r.phase case Starting => 1 case Ready => 2 case Draining => 3 case Stopped => 4)
    && RunStateAt(bytes, 81, r.runState)
    && ByteAt(bytes, 82, match r.executionMode
                         case None => 1 case Some(Off) => 2 case Some(Sim) => 3 case Some(Live) => 4)
    && NumberAt(bytes, 83, 8, r.acknowledgedEpoch) && NumberAt(bytes, 91, 8, r.spinIntervalUs)
    && NumberAt(bytes, 99, 2, r.featureCount)
  }

  lemma LifecycleFromLayout(bytes: seq<U8>, r: LifecycleReport)
    requires LaidOut(bytes, 80, LIFECYCLE_LAYOUT, LifecycleValues(r))
    ensures LifecycleAt(bytes, r)
  {
    hide LaidOut, NumberAt;
    var layout, values := LIFECYCLE_LAYOUT, LifecycleValues(r);
    LaidOutInThrees(bytes, 80, layout, values);
    LaidOutInThrees(bytes, 83, layout[3..], values[3..]);
  }

  lemma LifecycleOnTheWire(d: LinkDatagram)
    requires WellFormed(d) && d.body.LifecycleBody?
    ensures LifecycleAt(EncodeDatagram(d), d.body.report)
  {
    hide LaidOut, EncodeDatagram, LifecycleAt, LifecycleValues;
    DatagramIsLaidOut(d);
    LifecycleFromLayout(EncodeDatagram(d), d.body.report);
  }

  // ---------------------------------------------------------------- the bodies with a run of slots

  ghost predicate SlotAt(bytes: seq<U8>, i: nat, t: TopicSet)
    requires i < |t.topics|
  {
    NumberAt(bytes, 81 + 2 * i, 2, if i < t.len then t.topics[i] else 0)
  }

  /** The count, sixteen slots of which those past it are zero, and the claim. */
  ghost predicate SubscriptionAt(bytes: seq<U8>, s: Subscription) {
    && NumberAt(bytes, 80, 1, s.topics.len)
    && (forall i: nat :: i < |s.topics.topics| ==> SlotAt(bytes, i, s.topics))
    && RunStateAt(bytes, 113, s.desiredState) && NumberAt(bytes, 114, 8, s.desiredEpoch)
  }

  lemma SubscriptionFromLayout(bytes: seq<U8>, s: Subscription)
    requires TopicSetOk(s.topics) && |SubscribeValues(s)| == |SUBSCRIBE_LAYOUT|
    requires LaidOut(bytes, 80, SUBSCRIBE_LAYOUT, SubscribeValues(s))
    ensures SubscriptionAt(bytes, s)
  {
    hide LaidOut, NumberAt, LayoutWidth;
    var slots, values := Repeat(Unsigned(2), LINK_MAX_TOPICS), SubscribeValues(s);
    WidthOfOne(SUBSCRIBE_HEAD);
    RepeatedWidth(Unsigned(2), LINK_MAX_TOPICS);
    LaidOutPast(bytes, 80, SUBSCRIBE_HEAD, slots + SUBSCRIBE_TAIL, values);
    LaidOutFirst(bytes, 80, SUBSCRIBE_HEAD, values[..1]);
    LaidOutPast(bytes, 81, slots, SUBSCRIBE_TAIL, values[1..]);
    var topics, tail := values[1..][..LINK_MAX_TOPICS], values[1..][LINK_MAX_TOPICS..];
    forall i: nat | i < LINK_MAX_TOPICS
      ensures SlotAt(bytes, i, s.topics)
    {
      LaidOutRun(bytes, 81, Unsigned(2), LINK_MAX_TOPICS, topics, i);
      assert topics[i] == values[1 + i];
    }
    assert tail == [Tag(RunStateTag(s.desiredState)), Number(s.desiredEpoch)];
    LaidOutFirst(bytes, 113, SUBSCRIBE_TAIL, tail);
    LaidOutFirst(bytes, 114, SUBSCRIBE_TAIL[1..], tail[1..]);
  }

  lemma WidthOfOne(layout: Layout)
    requires |layout| == 1
    ensures LayoutWidth(layout) == Width(layout[0])
  {
    assert layout[1..] == [] && LayoutWidth(layout[1..]) == 0;
  }

  lemma WidthOfThree(layout: Layout)
    requires |layout| == 3
    ensures LayoutWidth(layout) == Width(layout[0]) + Width(layout[1]) + Width(layout[2])
  {
    WidthOf3(layout);
    assert layout[3..] == [] && LayoutWidth([]) == 0;
    hide LayoutWidth;
  }

  lemma SubscriptionOnTheWire(d: LinkDatagram)
    requires WellFormed(d) && d.body.SubscribeBody?
    ensures SubscriptionAt(EncodeDatagram(d), d.body.subscription)
  {
    hide LaidOut, EncodeDatagram, SubscriptionAt, SubscribeValues;
    DatagramIsLaidOut(d);
    SubscriptionFromLayout(EncodeDatagram(d), d.body.subscription);
  }

  ghost predicate PayloadAt(bytes: seq<U8>, p: LinkPayload) {
    && NumberAt(bytes, 80, 8, p.schemaHash) && NumberAt(bytes, 88, 8, p.eventTs) && NumberAt(bytes, 96, 1, p.count)
    && (forall i :: 0 <= i < |p.words| ==> NumberAt(bytes, 97 + 8 * i, 8, p.words[i]))
  }

  lemma PayloadFromLayout(bytes: seq<U8>, p: LinkPayload)
    requires PayloadOk(p) && LaidOut(bytes, 80, PAYLOAD_LAYOUT, PayloadValues(p))
    ensures PayloadAt(bytes, p)
  {
    hide LaidOut, NumberAt, LayoutWidth;
    var values := PayloadValues(p);
    WidthOfThree(PAYLOAD_HEAD);
    LaidOutPast(bytes, 80, PAYLOAD_HEAD, Repeat(Unsigned(8), LINK_MAX_FIELDS), values);
    LaidOutInThrees(bytes, 80, PAYLOAD_HEAD, values[..3]);
    forall i | 0 <= i < LINK_MAX_FIELDS
      ensures NumberAt(bytes, 97 + 8 * i, 8, p.words[i])
    {
      LaidOutRun(bytes, 97, Unsigned(8), LINK_MAX_FIELDS, values[3..], i);
    }
  }

  lemma PayloadOnTheWire(d: LinkDatagram)
    requires WellFormed(d) && d.body.PayloadBody?
    ensures PayloadAt(EncodeDatagram(d), d.body.payload)
  {
    hide LaidOut, EncodeDatagram, PayloadAt, PayloadValues;
    DatagramIsLaidOut(d);
    PayloadFromLayout(EncodeDatagram(d), d.body.payload);
  }

  /** Thirty-two bids and then as many asks, a price and a quantity each. */
  ghost predicate BookAt(bytes: seq<U8>, b: BookSnapshot) {
    && NumberAt(bytes, 80, 2, b.instrument) && NumberAt(bytes, 82, 8, b.seqNo) && NumberAt(bytes, 90, 8, b.eventTs)
    && ByteAt(bytes, 98, match b.state case AwaitingSnapshot => 1 case Valid => 2)
    && NumberAt(bytes, 99, 2, b.bidLen) && NumberAt(bytes, 101, 2, b.askLen)
    && (forall k :: 0 <= k < |b.bids| ==>
          NumberAt(bytes, 103 + 16 * k, 8, b.bids[k].price) && NumberAt(bytes, 111 + 16 * k, 8, b.bids[k].qty))
    && (forall k :: 0 <= k < |b.asks| ==>
          NumberAt(bytes, 615 + 16 * k, 8, b.asks[k].price) && NumberAt(bytes, 623 + 16 * k, 8, b.asks[k].qty))
  }

  lemma BookHeadFromLayout(bytes: seq<U8>, b: BookSnapshot)
    requires BookOk(b) && LaidOut(bytes, 80, BOOK_LAYOUT, BookValues(b))
    ensures NumberAt(bytes, 80, 2, b.instrument) && NumberAt(bytes, 82, 8, b.seqNo) && NumberAt(bytes, 90, 8, b.eventTs)
    ensures ByteAt(bytes, 98, match b.state case AwaitingSnapshot => 1 case Valid => 2)
    ensures NumberAt(bytes, 99, 2, b.bidLen) && NumberAt(bytes, 101, 2, b.askLen)
    ensures LaidOut(bytes, 103, Repeat(Signed64, 4 * UI_BOOK_LEVELS), Numbers(LevelNumbers(b.bids, b.asks)))
  {
    hide LaidOut, NumberAt, LayoutWidth, LevelNumbers;
    var values := BookValues(b);
    WidthOf3(BOOK_HEAD);
    WidthOfThree(BOOK_HEAD[3..]);
    LaidOutPast(bytes, 80, BOOK_HEAD, Repeat(Signed64, 4 * UI_BOOK_LEVELS), values);
    LaidOutInThrees(bytes, 80, BOOK_HEAD, values[..6]);
    LaidOutInThrees(bytes, 98, BOOK_HEAD[3..], values[..6][3..]);
    assert values[6..] == Numbers(LevelNumbers(b.bids, b.asks));
  }

  lemma BookFromLayout(bytes: seq<U8>, b: BookSnapshot)
    requires BookOk(b) && LaidOut(bytes, 80, BOOK_LAYOUT, BookValues(b))
    ensures BookAt(bytes, b)
  {
    hide LaidOut, NumberAt, LevelNumbers, BookValues;
    BookHeadFromLayout(bytes, b);
    var n, values := 4 * UI_BOOK_LEVELS, Numbers(LevelNumbers(b.bids, b.asks));
    forall k: nat | k < UI_BOOK_LEVELS
      ensures NumberAt(bytes, 103 + 16 * k, 8, b.bids[k].price) && NumberAt(bytes, 111 + 16 * k, 8, b.bids[k].qty)
      ensures NumberAt(bytes, 615 + 16 * k, 8, b.asks[k].price) && NumberAt(bytes, 623 + 16 * k, 8, b.asks[k].qty)
    {
      LevelsInNumbers(b.bids, b.asks, k);
      LaidOutRun(bytes, 103, Signed64, n, values, 2 * k);
      LaidOutRun(bytes, 103, Signed64, n, values, 2 * k + 1);
      LaidOutRun(bytes, 103, Signed64, n, values, 2 * UI_BOOK_LEVELS + 2 * k);
      LaidOutRun(bytes, 103, Signed64, n, values, 2 * UI_BOOK_LEVELS + 2 * k + 1);
    }
  }

  lemma BookOnTheWire(d: LinkDatagram)
    requires WellFormed(d) && d.body.BookBody?
    ensures BookAt(EncodeDatagram(d), d.body.book)
  {
    hide LaidOut, EncodeDatagram, BookAt, BookValues;
    DatagramIsLaidOut(d);
    BookFromLayout(EncodeDatagram(d), d.body.book);
  }

  // ---------------------------------------------------------------- the feed's bodies

  /** An event's tag, its sequence number and its stamp, then its own fields in order. */
  lemma FeedOnTheWire(d: LinkDatagram)
    requires WellFormed(d)
    ensures d.body.EventBody? ==> FeedBytes.AllAt(EncodeDatagram(d), 80, Feed.EVENT_SHAPES, d.body.event)
    ensures d.body.HistoryBody? ==> FeedBytes.AllAt(EncodeDatagram(d), 80, Feed.HISTORY_SHAPES, d.body.history)
  {
    hide EncodeDatagram, FeedBytes.AllAt, Feed.WriteAll, Feed.HoldAll, Feed.SpanAll;
    var bytes := EncodeDatagram(d);
    DatagramIsLaidOut(d);
    if d.body.EventBody? {
      Feed.EventSpan();
      FeedFits(d.body.event, []);
      BlockIsThere(bytes, EVENT_BODY_LEN, Feed.WriteAll(Feed.EVENT_SHAPES, d.body.event));
      FeedBytes.AllAreLaidOut(Feed.EVENT_SHAPES, d.body.event);
      FeedBytes.AllMove(Feed.WriteAll(Feed.EVENT_SHAPES, d.body.event), 0, Feed.EVENT_SHAPES, d.body.event, bytes, 80);
    }
    if d.body.HistoryBody? {
      Feed.HistorySpan();
      FeedFits([], d.body.history);
      BlockIsThere(bytes, HISTORY_BODY_LEN, Feed.WriteAll(Feed.HISTORY_SHAPES, d.body.history));
      FeedBytes.AllAreLaidOut(Feed.HISTORY_SHAPES, d.body.history);
      FeedBytes.AllMove(Feed.WriteAll(Feed.HISTORY_SHAPES, d.body.history), 0, Feed.HISTORY_SHAPES, d.body.history,
                        bytes, 80);
    }
  }

  lemma BlockIsThere(bytes: seq<U8>, length: nat, raw: seq<U8>)
    requires LaidOut(bytes, 80, [Block(length)], [Raw(raw)])
    ensures FeedBytes.Moved(raw, bytes, 80)
  {
    assert FieldAt(bytes, 80, Block(length), Raw(raw));
    forall i | 0 <= i < |raw|
      ensures bytes[80 + i] == raw[i]
    {
      assert raw[i] == bytes[80..80 + length][i];
    }
  }

  // ---------------------------------------------------------------- what is refused, and for what

  /** The topics there are, by number, and how long a body of each is; every strategy topic has one length. */
  function KnownLength(topic: U16): Option<nat> {
    match topic
    case 0 => Some(42)
    case 1 => Some(1047)
    case 2 => Some(295)
    case 3 => Some(141)
    case 4 => Some(45)
    case 5 => Some(21)
    case 6 => Some(1111)
    case _ => if topic >= 16 then Some(321) else None
  }

  /** A datagram travels under the number of its kind. */
  lemma TopicsHaveTheirNumbers(d: LinkDatagram)
    requires WellFormed(d)
    ensures var topic := match d.body
              case SubscribeBody(_) => 0
              case BookBody(_) => 1
              case EventBody(_) => 2
              case InstrumentBody(_) => 3
              case FeatureBody(_) => 4
              case LifecycleBody(_) => 5
              case HistoryBody(_) => 6
              case PayloadBody(_) => d.envelope.topic as int;
            && NumberAt(EncodeDatagram(d), 6, 2, topic)
            && (d.body.PayloadBody? ==> topic >= 16)
    ensures KnownLength(d.envelope.topic).Some?
    ensures |EncodeDatagram(d)| == 80 + KnownLength(d.envelope.topic).value
  {
    hide EncodeDatagram, NumberAt, TopicLayout, WellFormedBody;
    EnvelopeOnTheWire(d);
    LengthsAreKnown(d.envelope.topic);
    EncodedLength(d);
  }

  lemma LengthsAreKnown(topic: U16)
    ensures TopicBodyLen(topic) == KnownLength(topic)
  {
  }

  lemma EncodedLength(d: LinkDatagram)
    requires WellFormed(d)
    ensures TopicBodyLen(d.envelope.topic).Some?
    ensures |EncodeDatagram(d)| == ENVELOPE_LEN + TopicBodyLen(d.envelope.topic).value
  {
    hide WriteRecord, LayoutWidth, TopicLayout, TopicBodyLen, BodyValues, EnvelopeValues, WellFormedBody, AllFit;
    EnvelopeFits(d.envelope);
    BodyFits(d.body, d.envelope.topic);
    EnvelopeWidth();
    TopicWidth(d.envelope.topic);
  }

  /** What is wrong with a datagram's head and length is told in one order, and each fault for what it is; only a
      datagram with none of them has its body read. */
  lemma FaultsAreToldInOrder(bytes: seq<U8>, guard: FrameGuard)
    ensures |bytes| < 80 ==> DecodeDatagram(bytes, guard) == Err(Truncated(|bytes|))
    ensures |bytes| >= 80 ==>
              var e, r := ReadEnvelope(bytes[..80]), DecodeDatagram(bytes, guard);
              var length := KnownLength(e.topic);
              if e.magic != 0x504C_4E4B then r == Err(MagicMismatch(e.magic))
              else if e.version != 10 then r == Err(VersionMismatch(e.version))
              else if e.tokenHash != guard.tokenHash then r == Err(TokenMismatch(e.tokenHash))
              else if e.strategyHash != guard.strategyHash then r == Err(StrategyMismatch(e.strategyHash))
              else if length.None? then r == Err(UnknownTopic(e.topic))
              else if |bytes| != 80 + length.value then r == Err(LengthMismatch(80 + length.value, |bytes|))
              else if e.topic >= 16 && FromLittleEndian(bytes[80..88]) != guard.schemaHash
                then r == Err(SchemaMismatch(FromLittleEndian(bytes[80..88])))
              else r.Ok? ==> r.value.envelope == e
  {
    if |bytes| >= 80 {
      hide ReadEnvelope, BodyOf, ReadRecord, TopicLayout, TopicBodyLen, FromLittleEndian;
      var e := ReadEnvelope(bytes[..80]);
      LengthsAreKnown(e.topic);
      TopicWidth(e.topic);
      assert |bytes| >= 88 ==> bytes[80..][..8] == bytes[80..88];
    }
  }

  // ---------------------------------------------------------------- refusals inside a body

  /** A count past its capacity, a name that is too long or no text, and a tag that names nothing are each refused for
      what they are; nothing else in a field is. */
  lemma FieldFaultsAreTold(kind: Kind, bytes: seq<U8>)
    requires |bytes| == Width(kind)
    ensures var r := ReadField(kind, bytes);
            match kind
            case Unsigned(_) => r.Ok?
            case Signed64 => r.Ok?
            case Block(_) => r == Ok(Raw(bytes))
            case Count(_, limit, capacity) =>
              var n := FromLittleEndian(bytes);
              if n > capacity then r == Err(CountExceeded(limit, n)) else r == Ok(Number(n))
            case OptionalSigned64 =>
              && (bytes[0] == 0 ==> r == Ok(Optional(None)))
              && (bytes[0] == 1 ==> r.Ok? && r.value.Optional? && r.value.v.Some?
                                    && NumberAt(bytes, 1, 8, r.value.v.value))
              && (bytes[0] > 1 ==> r == Err(UnknownDiscriminant(OptionalMantissa, bytes[0])))
            case Variant(field, variants) =>
              if 1 <= bytes[0] <= variants then r == Ok(Tag(bytes[0]))
              else r == Err(UnknownDiscriminant(field, bytes[0]))
            case Name =>
              var len := bytes[0];
              if len > 32 then r == Err(NameTooLong(len))
              else if !IsUtf8(bytes[1..1 + len]) then r == Err(NameNotUtf8)
              else r.Ok? && r.value.Text? && r.value.len == len && r.value.bytes[..len] == bytes[1..1 + len]
                   && forall i :: len <= i < 32 ==> r.value.bytes[i] == 0
  {
    hide FromLittleEndian, LittleEndian, IsUtf8, Pow256;
    if kind.OptionalSigned64? {
      NumbersReadWhatIsThere(Signed64, bytes[1..]);
      FieldMoves(bytes[1..], 0, Signed64, ReadField(Signed64, bytes[1..]).value, bytes[..1], []);
      assert bytes[..1] + bytes[1..] + [] == bytes;
    }
  }
}
