/** The workstation's end of the link (src/workstation/link_session.rs): each datagram passes a sequence gate and
    a run gate before it is delivered, and a switch of engines forgets all that was known of the last one. */
module Session {
  import opened Common
  import opened Frame
  import Feed
  import opened Catalog
  import G = Gate
  import R = RunControl
  import O = Outbox

  // ---------------------------------------------------------------- which run the frames come from

  datatype RemoteRun = RemoteRun(sender: int, bootTs: int)

  datatype RunObservation = First | Same | Restarted | Stale

  function Observe(current: Option<RemoteRun>, sender: int, bootTs: int): (Option<RemoteRun>, RunObservation) {
    var incoming := RemoteRun(sender, bootTs);
    if current.None? then (Some(incoming), First)
    else if bootTs < current.value.bootTs then (current, Stale)
    else if incoming == current.value then (current, Same)
    else (Some(incoming), Restarted)
  }

  class RemoteRunGate {
    var current: Option<RemoteRun>

    constructor ()
      ensures current == None
    {
      current := None;
    }

    method ObserveRun(sender: int, bootTs: int) returns (observation: RunObservation)
      modifies this
      ensures (current, observation) == Observe(old(current), sender, bootTs)
    {
      var incoming := RemoteRun(sender, bootTs);
      if current.None? {
        current := Some(incoming);
        return First;
      }
      if bootTs < current.value.bootTs {
        return Stale;
      }
      if incoming == current.value {
        return Same;
      }
      current := Some(incoming);
      observation := Restarted;
    }

    method Clear()
      modifies this
      ensures current == None
    {
      current := None;
    }
  }

  // ---------------------------------------------------------------- the session, as a value

  datatype Delivery =
    | BookDelivery(book: BookSnapshot)
    | EventDelivery(event: seq<Feed.Content>)
    | CatalogDelivery(catalog: UiCatalog)
    | HistoryDelivery(history: seq<Feed.Content>)

  datatype SessionView = SessionView(
    active: nat, session: nat, gate: seq<G.GateSlot>, run: Option<RemoteRun>, catalog: CatalogView,
    publishedStamp: Option<I64>, reported: Option<LifecycleReport>, lastSeen: Option<int>)

  const NEW_SESSION := SessionView(0, 0, [], None, NEW_CATALOG, None, None, None)

  function OriginOf(e: Envelope): G.Origin {
    G.Origin(e.senderTeHash, e.topic, e.bootTs, e.seqNo)
  }

  function PublishCatalog(s: SessionView): (SessionView, Option<Delivery>) {
    if s.catalog.stamp.None? || s.publishedStamp == s.catalog.stamp || s.reported.None? then (s, None)
    else
      match Build(s.catalog, s.reported.value)
      case None => (s, None)
      case Some(built) => (s.(publishedStamp := s.catalog.stamp), Some(CatalogDelivery(built)))
  }

  /** A catalog stamp that changed under a held one starts the model over. */
  function OnCatalogFrame(s: SessionView, previous: Option<I64>): (SessionView, Option<Delivery>) {
    var raised := if previous.Some? && previous != s.catalog.stamp then s.(session := s.session + 1) else s;
    PublishCatalog(raised)
  }

  function BeginEngineRun(s: SessionView): SessionView {
    s.(session := s.session + 1, catalog := NEW_CATALOG, publishedStamp := None, reported := None)
  }

  function OnBody(s: SessionView, body: LinkBody): (SessionView, Option<Delivery>) {
    match body
    case BookBody(book) => (s, Some(BookDelivery(book)))
    case EventBody(event) => (s, Some(EventDelivery(event)))
    case InstrumentBody(frame) => OnCatalogFrame(s.(catalog := AcceptInstrument(s.catalog, frame)), s.catalog.stamp)
    case FeatureBody(frame) => OnCatalogFrame(s.(catalog := AcceptFeature(s.catalog, frame)), s.catalog.stamp)
    case LifecycleBody(report) => PublishCatalog(s.(reported := Some(report)))
    case HistoryBody(history) => (s, Some(HistoryDelivery(history)))
    case SubscribeBody(_) => (s, None)
    case PayloadBody(_) => (s, None)
  }

  /** Whether a frame passed both gates, and the session as they left it. */
  function PassGates(s: SessionView, e: Envelope, now: int): (SessionView, RunObservation) {
    var (slots, verdict) := G.Admit(s.gate, OriginOf(e), now);
    if !G.IsAccepted(verdict) then (s.(gate := slots), Stale)
    else
      var (run, observation) := Observe(s.run, e.senderTeHash, e.bootTs);
      (s.(gate := slots, run := run), observation)
  }

  function OnDecoded(s: SessionView, datagram: LinkDatagram, now: int): (SessionView, Option<Delivery>) {
    var (gated, observation) := PassGates(s, datagram.envelope, now);
    if observation.Stale? then (gated, None)
    else
      var entered := if observation.Restarted? then BeginEngineRun(gated) else gated;
      OnBody(entered.(lastSeen := Some(now)), datagram.body)
  }

  function OnDatagram(s: SessionView, bytes: seq<U8>, guard: FrameGuard, now: int): (SessionView, Option<Delivery>) {
    match DecodeDatagram(bytes, guard)
    case Err(_) => (s, None)
    case Ok(datagram) => OnDecoded(s, datagram, now)
  }

  function PeerAfter(active: nat, peers: nat): nat
    requires peers > 0
  {
    (active + 1) % peers
  }

  function AttachToNext(s: SessionView, peers: nat): SessionView {
    if peers < 2 then s
    else SessionView(PeerAfter(s.active, peers), s.session + 1, [], None, NEW_CATALOG, None, None, None)
  }

  // ---------------------------------------------------------------- runs of events

  datatype Event = Datagram(bytes: seq<U8>, now: int) | NextPeer

  /** A frame that passed both gates: under which attachment and which engine run, stamped by which boot, and
      what came of it. A delivered catalog is recorded with the assembly it was built from. */
  datatype Passed = Passed(attachment: nat, engineRun: nat, session: nat, bootTs: int, delivery: Option<Delivery>,
                           assembly: CatalogView, featureCount: int)

  datatype World = World(s: SessionView, attachment: nat, engineRun: nat, log: seq<Passed>)

  datatype Config = Config(guard: FrameGuard, peers: nat)

  function Step(config: Config, w: World, event: Event): World {
    match event
    case NextPeer =>
      if config.peers < 2 then w
      else World(AttachToNext(w.s, config.peers), w.attachment + 1, w.engineRun + 1, w.log)
    case Datagram(bytes, now) =>
      var (s', delivery) := OnDatagram(w.s, bytes, config.guard, now);
      match DecodeDatagram(bytes, config.guard)
      case Err(_) => w.(s := s')
      case Ok(datagram) =>
        var observation := PassGates(w.s, datagram.envelope, now).1;
        if observation.Stale? then w.(s := s')
        else
          var engineRun := if observation.Restarted? then w.engineRun + 1 else w.engineRun;
          var count := if s'.reported.Some? then s'.reported.value.featureCount else 0;
          World(s', w.attachment, engineRun,
                w.log + [Passed(w.attachment, engineRun, s'.session, datagram.envelope.bootTs,
                                delivery, s'.catalog, count)])
  }

  function Run(config: Config, events: seq<Event>): World
    decreases |events|
  {
    if events == [] then World(NEW_SESSION, 0, 0, [])
    else Step(config, Run(config, events[..|events| - 1]), events[|events| - 1])
  }

  // ---------------------------------------------------------------- what a frame comes to

  /** The first run heard is adopted, an older boot is refused, the same run goes on and any other is a restart. */
  lemma RunsAreToldApart(current: Option<RemoteRun>, sender: int, bootTs: int)
    ensures var (after, observation) := Observe(current, sender, bootTs);
            && (observation == First <==> current.None?)
            && (observation == Stale <==> current.Some? && bootTs < current.value.bootTs)
            && (observation == Same <==>
                current.Some? && bootTs == current.value.bootTs && sender == current.value.sender)
            && after == (if observation == Stale then current else Some(RemoteRun(sender, bootTs)))
  {
  }

  /** A frame passes when its stream accepts it and its boot is not older than the run's. */
  predicate Passes(s: SessionView, e: Envelope, now: int) {
    G.IsAccepted(G.Admit(s.gate, OriginOf(e), now).1) && (s.run.Some? ==> s.run.value.bootTs <= e.bootTs)
  }

  /** A frame that does not pass leaves its trace at the gate and nowhere else. */
  lemma RefusedFramesAreDropped(s: SessionView, datagram: LinkDatagram, now: int)
    requires !Passes(s, datagram.envelope, now)
    ensures OnDecoded(s, datagram, now)
         == (s.(gate := G.Admit(s.gate, OriginOf(datagram.envelope), now).0), None)
  {
    hide G.Admit, OnBody;
  }

  /** One that passes is folded into its own run: the one under way, or a new one that starts everything over under the
      next session number. */
  lemma PassedFramesAreFoldedIn(s: SessionView, datagram: LinkDatagram, now: int)
    requires Passes(s, datagram.envelope, now)
    ensures var e := datagram.envelope;
            var run := RemoteRun(e.senderTeHash, e.bootTs);
            var goesOn := s.run.None? || s.run.value == run;
            var gate := G.Admit(s.gate, OriginOf(e), now).0;
            OnDecoded(s, datagram, now)
            == OnBody(SessionView(s.active, if goesOn then s.session else s.session + 1, gate, Some(run),
                                  if goesOn then s.catalog else CatalogView(None, [], [], None),
                                  if goesOn then s.publishedStamp else None,
                                  if goesOn then s.reported else None, Some(now)),
                      datagram.body)
  {
    hide G.Admit, OnBody;
  }

  lemma BodiesLeaveTheGates(s: SessionView, body: LinkBody)
    ensures var s' := OnBody(s, body).0; s'.gate == s.gate && s'.run == s.run
  {
    hide AcceptInstrument, AcceptFeature, Build;
  }

  /** Of the frames one engine sends under one topic, whatever passes after a frame that passed is of a later boot, or
      of the same boot and a higher number; and whatever is does pass. */
  lemma StreamsPassInOrder(s: SessionView, first: LinkDatagram, now: int, second: LinkDatagram, later: int)
    requires G.Sound(s.gate) && Passes(s, first.envelope, now)
    requires second.envelope.senderTeHash == first.envelope.senderTeHash
    requires second.envelope.topic == first.envelope.topic
    ensures var a, b := first.envelope, second.envelope;
            Passes(OnDecoded(s, first, now).0, b, later) <==>
              b.bootTs > a.bootTs || (b.bootTs == a.bootTs && b.seqNo > a.seqNo)
  {
    hide G.Admit, G.Sound, OnBody;
    G.OwnStream(s.gate, OriginOf(first.envelope), now);
    var gate := G.Admit(s.gate, OriginOf(first.envelope), now).0;
    G.OwnStream(gate, OriginOf(second.envelope), later);
    var (gated, observation) := PassGates(s, first.envelope, now);
    var entered := if observation.Restarted? then BeginEngineRun(gated) else gated;
    BodiesLeaveTheGates(entered.(lastSeen := Some(now)), first.body);
  }

  /** Market data is delivered as it came; what only an engine takes is not. */
  lemma MarketDataIsDelivered(s: SessionView, body: LinkBody)
    ensures body.BookBody? ==> OnBody(s, body) == (s, Some(BookDelivery(body.book)))
    ensures body.EventBody? ==> OnBody(s, body) == (s, Some(EventDelivery(body.event)))
    ensures body.HistoryBody? ==> OnBody(s, body) == (s, Some(HistoryDelivery(body.history)))
    ensures body.SubscribeBody? || body.PayloadBody? ==> OnBody(s, body) == (s, None)
  {
  }

  /** The announced numbers are held and every feature id has a slot. */
  predicate Complete(c: CatalogView, reported: LifecycleReport) {
    && c.instrumentTotal == Some(|c.instruments|) && |c.features| == reported.featureCount
    && forall i :: 0 <= i < |c.features| ==> c.features[i].feature < reported.featureCount
  }

  /** A catalog frame or a report is folded in, and the catalog goes out exactly when that makes it complete under a
      stamp not yet published. A stamp that replaces another takes the next session number first. */
  lemma CatalogsGoOutWhenComplete(s: SessionView, body: LinkBody)
    requires body.InstrumentBody? || body.FeatureBody? || body.LifecycleBody?
    ensures var (s', delivery) := OnBody(s, body);
            var catalog := if body.InstrumentBody? then AcceptInstrument(s.catalog, body.instrument)
                           else if body.FeatureBody? then AcceptFeature(s.catalog, body.feature) else s.catalog;
            var reported := if body.LifecycleBody? then Some(body.report) else s.reported;
            var isReplaced := s.catalog.stamp.Some? && s.catalog.stamp != catalog.stamp;
            var goesOut := catalog.stamp.Some? && catalog.stamp != s.publishedStamp && reported.Some?
                           && Complete(catalog, reported.value);
            && s' == s.(catalog := catalog, reported := reported, session := s.session + (if isReplaced then 1 else 0),
                        publishedStamp := if goesOut then catalog.stamp else s.publishedStamp)
            && (goesOut ==> delivery.Some? && delivery.value.CatalogDelivery?
                            && Build(catalog, reported.value) == Some(delivery.value.catalog))
            && (!goesOut ==> delivery.None?)
  {
    hide AcceptInstrument, AcceptFeature, Build;
    var catalog := if body.InstrumentBody? then AcceptInstrument(s.catalog, body.instrument)
                   else if body.FeatureBody? then AcceptFeature(s.catalog, body.feature) else s.catalog;
    var reported := if body.LifecycleBody? then Some(body.report) else s.reported;
    if reported.Some? {
      BuildsExactlyWhenWhole(catalog, reported.value);
    }
  }

  predicate EntersAnotherRun(s: SessionView, e: Envelope) {
    s.run.Some? && s.run.value != RemoteRun(e.senderTeHash, e.bootTs)
  }

  /** A run's session is the one its datagrams and switches make, and its log has each frame that passed, and no
      other, with what came of it. */
  lemma StepsFollowTheSession(config: Config, w: World, bytes: seq<U8>, now: int)
    ensures var w', decoded := Step(config, w, Datagram(bytes, now)), DecodeDatagram(bytes, config.guard);
            && (decoded.Err? ==> w' == w)
            && (decoded.Ok? ==>
                  && w'.s == OnDecoded(w.s, decoded.value, now).0 && w'.attachment == w.attachment
                  && (!Passes(w.s, decoded.value.envelope, now) ==> w'.log == w.log && w'.engineRun == w.engineRun)
                  && (Passes(w.s, decoded.value.envelope, now) ==>
                        && |w'.log| == |w.log| + 1 && w'.log[..|w.log|] == w.log
                        && w'.log[|w.log|].delivery == OnDecoded(w.s, decoded.value, now).1
                        && w'.log[|w.log|].bootTs == decoded.value.envelope.bootTs
                        && w'.log[|w.log|].engineRun == w'.engineRun && w'.log[|w.log|].attachment == w.attachment
                        && w'.log[|w.log|].session == w'.s.session && w'.log[|w.log|].assembly == w'.s.catalog
                        && w'.engineRun
                           == w.engineRun + if EntersAnotherRun(w.s, decoded.value.envelope) then 1 else 0))
  {
    hide DecodeDatagram, G.Admit, OnBody;
  }

  // ---------------------------------------------------------------- what every step keeps

  predicate IsCatalog(p: Passed) {
    p.delivery.Some? && p.delivery.value.CatalogDelivery?
  }

  ghost predicate BootsPaired(log: seq<Passed>) {
    forall i, j :: 0 <= i < j < |log| && log[i].attachment == log[j].attachment ==> log[i].bootTs <= log[j].bootTs
  }

  ghost predicate BootsInOrder(w: World) {
    && BootsPaired(w.log)
    && (forall i :: 0 <= i < |w.log| ==> w.log[i].attachment <= w.attachment)
    && (forall i :: 0 <= i < |w.log| && w.log[i].attachment == w.attachment ==>
          w.s.run.Some? && w.log[i].bootTs <= w.s.run.value.bootTs)
  }

  ghost predicate CatalogsPaired(log: seq<Passed>) {
    forall i, j ::
      0 <= i < j < |log| && IsCatalog(log[i]) && IsCatalog(log[j]) && log[i].engineRun == log[j].engineRun ==>
      && log[i].assembly.stamp.Some? && log[j].assembly.stamp.Some?
      && log[i].assembly.stamp.value < log[j].assembly.stamp.value
  }

  ghost predicate CatalogsInOrder(w: World) {
    && CatalogsPaired(w.log)
    && (forall i :: 0 <= i < |w.log| ==> w.log[i].engineRun <= w.engineRun)
    && (forall i :: 0 <= i < |w.log| && IsCatalog(w.log[i]) && w.log[i].engineRun == w.engineRun ==>
          && w.s.publishedStamp.Some? && w.log[i].assembly.stamp.Some?
          && w.log[i].assembly.stamp.value <= w.s.publishedStamp.value)
    && NotBefore(w.s.publishedStamp, w.s.catalog.stamp)
  }

  ghost predicate CatalogsWhole(w: World) {
    forall i :: 0 <= i < |w.log| && IsCatalog(w.log[i]) ==>
      IsWhole(w.log[i].assembly, w.log[i].featureCount, w.log[i].delivery.value.catalog)
  }

  /** Two delivered catalogs never share a session number; while one of the current session stands, its
      stamp is the one held. */
  ghost predicate SessionsInOrder(w: World) {
    && SessionsPaired(w.log)
    && (forall i :: 0 <= i < |w.log| && IsCatalog(w.log[i]) ==>
          && w.log[i].session <= w.s.session
          && (w.log[i].session == w.s.session ==> Standing(w.s)))
  }

  ghost predicate SessionsPaired(log: seq<Passed>) {
    forall i, j :: 0 <= i < j < |log| && IsCatalog(log[i]) && IsCatalog(log[j]) ==> log[i].session < log[j].session
  }

  /** The catalog held is one already published. */
  predicate Standing(s: SessionView) {
    s.publishedStamp.Some? && s.publishedStamp == s.catalog.stamp
  }

  ghost predicate LogKept(w: World) {
    BootsInOrder(w) && CatalogsInOrder(w) && CatalogsWhole(w) && SessionsInOrder(w)
  }

  ghost predicate WorldKept(w: World) {
    G.Sound(w.s.gate) && Assembled(w.s.catalog) && LogKept(w)
  }

  /** What one body does to a session: catalogs only move forward, and one is delivered exactly when it is
      whole and its stamp is newer than the last published. */
  lemma BodyMoves(s: SessionView, body: LinkBody)
    requires Assembled(s.catalog) && NotBefore(s.publishedStamp, s.catalog.stamp)
    ensures var (s', delivery) := OnBody(s, body);
            && Assembled(s'.catalog) && NotBefore(s.publishedStamp, s'.publishedStamp)
            && NotBefore(s'.publishedStamp, s'.catalog.stamp)
            && s'.gate == s.gate && s'.run == s.run
            && s.session <= s'.session
            && (Standing(s) && s'.session == s.session ==>
                  Standing(s') && !(delivery.Some? && delivery.value.CatalogDelivery?))
            && (delivery.Some? && delivery.value.CatalogDelivery? ==>
                  && s'.publishedStamp == s'.catalog.stamp && s'.catalog.stamp.Some? && s'.reported.Some?
                  && (s.publishedStamp.Some? ==> s.publishedStamp.value < s'.catalog.stamp.value)
                  && IsWhole(s'.catalog, s'.reported.value.featureCount, delivery.value.catalog))
  {
    hide Assembled, IsWhole, Build, AcceptInstrument, AcceptFeature;
    var taken := match body
      case InstrumentBody(frame) => s.(catalog := AcceptInstrument(s.catalog, frame))
      case FeatureBody(frame) => s.(catalog := AcceptFeature(s.catalog, frame))
      case LifecycleBody(report) => s.(reported := Some(report))
      case _ => s;
    match body {
      case InstrumentBody(frame) => AcceptingInstrumentKeeps(s.catalog, frame);
      case FeatureBody(frame) => AcceptingFeatureKeeps(s.catalog, frame);
      case _ =>
    }
    if taken.reported.Some? && taken.catalog.stamp.Some? && Build(taken.catalog, taken.reported.value).Some? {
      BuiltIsWhole(taken.catalog, taken.reported.value);
    }
  }

  lemma PassedKeeps(config: Config, w: World, bytes: seq<U8>, now: int, datagram: LinkDatagram)
    requires WorldKept(w) && DecodeDatagram(bytes, config.guard) == Ok(datagram)
    ensures WorldKept(Step(config, w, Datagram(bytes, now)))
  {
    hide Assembled, IsWhole, DecodeDatagram, OnBody, G.Admit, G.Sound, LogKept;
    PublishedIsNotAhead(w);
    G.OwnStream(w.s.gate, OriginOf(datagram.envelope), now);
    var (gated, observation) := PassGates(w.s, datagram.envelope, now);
    if !observation.Stale? {
      NewCatalogIsAssembled();
      var entered := if observation.Restarted? then BeginEngineRun(gated) else gated;
      BodyMoves(entered.(lastSeen := Some(now)), datagram.body);
      LogExtends(config, w, bytes, now, datagram);
    } else {
      RefusedKeeps(w, gated);
    }
  }

  lemma PublishedIsNotAhead(w: World)
    requires LogKept(w)
    ensures NotBefore(w.s.publishedStamp, w.s.catalog.stamp)
  {
  }

  lemma NewCatalogIsAssembled()
    ensures Assembled(NEW_CATALOG)
  {
  }

  lemma BootsExtend(w: World, w': World, p: Passed)
    requires BootsInOrder(w) && w'.log == w.log + [p]
    requires p.attachment == w'.attachment == w.attachment
    requires w'.s.run.Some? && w'.s.run.value.bootTs == p.bootTs
    requires w.s.run.Some? ==> w.s.run.value.bootTs <= p.bootTs
    ensures BootsInOrder(w')
  {
  }

  lemma CatalogsExtend(w: World, w': World, p: Passed)
    requires CatalogsInOrder(w) && w'.log == w.log + [p] && p.engineRun == w'.engineRun
    requires w'.engineRun == w.engineRun || w'.engineRun == w.engineRun + 1
    requires w'.engineRun == w.engineRun ==> NotBefore(w.s.publishedStamp, w'.s.publishedStamp)
    requires NotBefore(w'.s.publishedStamp, w'.s.catalog.stamp)
    requires IsCatalog(p) ==>
               && p.assembly.stamp.Some? && w'.s.publishedStamp == p.assembly.stamp
               && (w'.engineRun == w.engineRun && w.s.publishedStamp.Some? ==>
                     w.s.publishedStamp.value < p.assembly.stamp.value)
    ensures CatalogsInOrder(w')
  {
  }

  lemma SessionsExtend(w: World, w': World, p: Passed)
    requires SessionsInOrder(w) && w'.log == w.log + [p] && p.session == w'.s.session >= w.s.session
    requires w'.s.session == w.s.session && Standing(w.s) ==> Standing(w'.s) && !IsCatalog(p)
    requires IsCatalog(p) ==> Standing(w'.s)
    ensures SessionsInOrder(w')
  {
  }

  lemma WholeExtends(w: World, w': World, p: Passed)
    requires CatalogsWhole(w) && w'.log == w.log + [p]
    requires IsCatalog(p) ==> IsWhole(p.assembly, p.featureCount, p.delivery.value.catalog)
    ensures CatalogsWhole(w')
  {
  }

  lemma LogExtends(config: Config, w: World, bytes: seq<U8>, now: int, datagram: LinkDatagram)
    requires LogKept(w) && Assembled(w.s.catalog)
    requires DecodeDatagram(bytes, config.guard) == Ok(datagram)
    requires !PassGates(w.s, datagram.envelope, now).1.Stale?
    ensures LogKept(Step(config, w, Datagram(bytes, now)))
  {
    hide Assembled, IsWhole, DecodeDatagram, OnBody, G.Admit, BootsInOrder, CatalogsInOrder, CatalogsWhole,
      SessionsInOrder;
    PublishedIsNotAhead(w);
    var (gated, observation) := PassGates(w.s, datagram.envelope, now);
    NewCatalogIsAssembled();
    var entered := if observation.Restarted? then BeginEngineRun(gated) else gated;
    BodyMoves(entered.(lastSeen := Some(now)), datagram.body);
    var w' := Step(config, w, Datagram(bytes, now));
    var p := w'.log[|w.log|];
    assert w'.log == w.log + [p];
    BootsExtend(w, w', p);
    CatalogsExtend(w, w', p);
    WholeExtends(w, w', p);
    SessionsExtend(w, w', p);
  }

  lemma FreshStartKeeps(w: World, w': World)
    requires LogKept(w) && w'.log == w.log
    requires w'.attachment > w.attachment && w'.engineRun > w.engineRun && w'.s.session > w.s.session
    requires w'.s.publishedStamp.None?
    ensures LogKept(w')
  {
  }

  lemma SwitchKeeps(config: Config, w: World)
    requires WorldKept(w)
    ensures WorldKept(Step(config, w, NextPeer))
  {
    hide LogKept;
    if config.peers >= 2 {
      FreshStartKeeps(w, Step(config, w, NextPeer));
      NewCatalogIsAssembled();
    }
  }

  /** A refused frame moves nothing but the gates. */
  lemma RefusedKeeps(w: World, s': SessionView)
    requires LogKept(w) && s' == w.s.(gate := s'.gate, run := s'.run)
    requires w.s.run.Some? ==> s'.run.Some? && w.s.run.value.bootTs <= s'.run.value.bootTs
    ensures LogKept(w.(s := s'))
  {
  }

  lemma StepKeeps(config: Config, w: World, event: Event)
    requires WorldKept(w)
    ensures WorldKept(Step(config, w, event))
  {
    hide DecodeDatagram, G.Admit, G.Sound, Assembled, Build, LogKept;
    match event
    case NextPeer => SwitchKeeps(config, w);
    case Datagram(bytes, now) =>
      match DecodeDatagram(bytes, config.guard)
      case Err(_) =>
      case Ok(datagram) => PassedKeeps(config, w, bytes, now, datagram);
  }

  lemma NewWorldIsKept()
    ensures WorldKept(World(NEW_SESSION, 0, 0, []))
  {
  }

  lemma {:induction false} EveryRunIsKept(config: Config, events: seq<Event>)
    ensures WorldKept(Run(config, events))
    decreases |events|
  {
    hide WorldKept, Step;
    if events == [] {
      NewWorldIsKept();
    } else {
      EveryRunIsKept(config, events[..|events| - 1]);
      StepKeeps(config, Run(config, events[..|events| - 1]), events[|events| - 1]);
    }
  }

  // ---------------------------------------------------------------- the theorems

  /** Between peer switches, frames that get through come from boots that never step back, across all topics
      and senders. */
  lemma BootsNeverStepBack(config: Config, events: seq<Event>, i: nat, j: nat)
    requires i < j < |Run(config, events).log|
    requires Run(config, events).log[i].attachment == Run(config, events).log[j].attachment
    ensures Run(config, events).log[i].bootTs <= Run(config, events).log[j].bootTs
  {
    EveryRunIsKept(config, events);
  }

  /** Within one engine run a catalog stamp is published at most once, and never after a newer one. */
  lemma OneCatalogPerStamp(config: Config, events: seq<Event>, i: nat, j: nat)
    requires i < j < |Run(config, events).log|
    requires IsCatalog(Run(config, events).log[i]) && IsCatalog(Run(config, events).log[j])
    requires Run(config, events).log[i].engineRun == Run(config, events).log[j].engineRun
    ensures var a, b := Run(config, events).log[i].assembly.stamp, Run(config, events).log[j].assembly.stamp;
            a.Some? && b.Some? && a.value < b.value
  {
    EveryRunIsKept(config, events);
  }

  /** A consumer that starts its model over whenever the session number moves never folds two catalogs into
      one model: each delivered catalog has a session number of its own. */
  lemma CatalogsNeverShareASession(config: Config, events: seq<Event>, i: nat, j: nat)
    requires i < j < |Run(config, events).log|
    requires IsCatalog(Run(config, events).log[i]) && IsCatalog(Run(config, events).log[j])
    ensures Run(config, events).log[i].session < Run(config, events).log[j].session
  {
    EveryRunIsKept(config, events);
  }

  /** Every catalog ever delivered was whole when it was. */
  lemma DeliveredCatalogsAreWhole(config: Config, events: seq<Event>, i: nat)
    requires i < |Run(config, events).log| && IsCatalog(Run(config, events).log[i])
    ensures var p := Run(config, events).log[i];
            IsWhole(p.assembly, p.featureCount, p.delivery.value.catalog)
  {
    EveryRunIsKept(config, events);
  }

  // ---------------------------------------------------------------- the session itself

  class LinkSession {
    const guard: FrameGuard
    const peers: nat
    var active: nat
    var session: nat
    var gate: G.SequenceGate
    const runGate: RemoteRunGate
    var catalog: CatalogAssembly
    var publishedStamp: Option<I64>
    var reported: Option<LifecycleReport>
    var lastSeen: Option<int>
    const controller: R.Controller
    var lastSubscribe: Option<int>
    var subscribeSeq: nat

    /** What the session knows of the engine, and what it has to tell it. */
    ghost function View(): SessionView
      reads this, gate, runGate, catalog
    {
      SessionView(active, session, gate.slots, runGate.current, catalog.View(), publishedStamp, reported, lastSeen)
    }

    ghost function Outbox(): O.OutboxView
      reads this, controller
    {
      O.OutboxView(controller.View(), lastSubscribe, subscribeSeq)
    }

    /** The first reading of the clock is the boot stamp the control epochs start from. */
    constructor (guard: FrameGuard, peers: nat, now: I64)
      requires peers > 0
      ensures this.guard == guard && this.peers == peers && View() == NEW_SESSION
      ensures Outbox() == O.NewOutbox(Max(now, 0))
      ensures fresh(gate) && fresh(runGate) && fresh(catalog) && fresh(controller)
    {
      this.guard, this.peers := guard, peers;
      controller := new R.Controller(now);
      lastSubscribe, subscribeSeq := None, 0;
      active, session, publishedStamp, reported, lastSeen := 0, 0, None, None, None;
      gate := new G.SequenceGate();
      runGate := new RemoteRunGate();
      catalog := new CatalogAssembly();
    }

    method HandleDatagram(bytes: seq<U8>, now: int) returns (delivery: Option<Delivery>)
      requires G.Sound(gate.slots)
      modifies this, gate, runGate, catalog
      ensures (View(), delivery) == OnDatagram(old(View()), bytes, guard, now) && Outbox() == old(Outbox())
      ensures G.Sound(gate.slots) && gate == old(gate) && (catalog == old(catalog) || fresh(catalog))
    {
      hide DecodeDatagram, OnDecoded, G.Sound, View, Outbox;
      var decoded := DecodeDatagram(bytes, guard);
      if decoded.Err? {
        return None;
      }
      delivery := HandleDecoded(decoded.value, now);
    }

    /** The sequence gate and then the run gate look at a datagram before its body is. */
    method HandleDecoded(datagram: LinkDatagram, now: int) returns (delivery: Option<Delivery>)
      requires G.Sound(gate.slots)
      modifies this, gate, runGate, catalog
      ensures (View(), delivery) == OnDecoded(old(View()), datagram, now) && Outbox() == old(Outbox())
      ensures G.Sound(gate.slots) && gate == old(gate) && (catalog == old(catalog) || fresh(catalog))
    {
      hide OnBody, G.Admit, G.Sound, CatalogAssembly.View, R.Controller.View;
      var verdict := gate.AdmitFrame(OriginOf(datagram.envelope), now);
      if !G.IsAccepted(verdict) {
        return None;
      }
      var observation := runGate.ObserveRun(datagram.envelope.senderTeHash, datagram.envelope.bootTs);
      if observation == Stale {
        return None;
      }
      if observation == Restarted {
        StartEngineRun();
      }
      lastSeen := Some(now);
      delivery := HandleBody(datagram.body);
    }

    /** Everything of the run before goes, and the session number moves on. */
    method StartEngineRun()
      modifies this`session, this`catalog, this`publishedStamp, this`reported
      ensures View() == BeginEngineRun(old(View())) && fresh(catalog)
    {
      session := session + 1;
      catalog := new CatalogAssembly();
      publishedStamp := None;
      reported := None;
    }

    method HandleBody(body: LinkBody) returns (delivery: Option<Delivery>)
      modifies this`session, this`publishedStamp, this`reported, catalog
      ensures (View(), delivery) == OnBody(old(View()), body)
    {
      match body {
        case BookBody(book) => return Some(BookDelivery(book));
        case EventBody(event) => return Some(EventDelivery(event));
        case HistoryBody(history) => return Some(HistoryDelivery(history));
        case SubscribeBody(_) => return None;
        case PayloadBody(_) => return None;
        case InstrumentBody(frame) =>
          var held := catalog.stamp;
          catalog.TakeInstrument(frame);
          delivery := AfterCatalogFrame(held);
        case FeatureBody(frame) =>
          var held := catalog.stamp;
          catalog.TakeFeature(frame);
          delivery := AfterCatalogFrame(held);
        case LifecycleBody(report) =>
          reported := Some(report);
          delivery := Publish();
      }
    }

    method AfterCatalogFrame(previous: Option<I64>) returns (delivery: Option<Delivery>)
      modifies this`session, this`publishedStamp
      ensures (View(), delivery) == OnCatalogFrame(old(View()), previous)
    {
      if previous.Some? && previous != catalog.stamp {
        session := session + 1;
      }
      delivery := Publish();
    }

    method Publish() returns (delivery: Option<Delivery>)
      modifies this`publishedStamp
      ensures (View(), delivery) == PublishCatalog(old(View()))
    {
      if catalog.stamp.None? || publishedStamp == catalog.stamp || reported.None? {
        return None;
      }
      var built := catalog.BuildCatalog(reported.value);
      if built.None? {
        return None;
      }
      publishedStamp := catalog.stamp;
      delivery := Some(CatalogDelivery(built.value));
    }

    method AttachToNextPeer() returns (moved: bool)
      requires peers > 0
      modifies this, runGate, controller
      ensures moved <==> peers >= 2
      ensures active == if peers < 2 then old(active) else (old(active) + 1) % peers
      ensures View() == AttachToNext(old(View()), peers)
      ensures Outbox() == if peers < 2 then old(Outbox()) else O.MovedOn(old(Outbox()))
    {
      assert PeerAfter(active, peers) == (active + 1) % peers;
      hide PeerAfter, R.Claim;
      if peers < 2 {
        return false;
      }
      active := PeerAfter(active, peers);
      session := session + 1;
      ForgetEngine();
      ghost var forgotten := View();
      controller.Release();
      lastSubscribe := None;
      assert View() == forgotten;
      moved := true;
    }

    method ForgetEngine()
      modifies this`gate, this`catalog, this`publishedStamp, this`reported, this`lastSeen, runGate
      ensures View() == SessionView(active, session, [], None, NEW_CATALOG, None, None, None)
      ensures fresh(gate) && fresh(catalog)
    {
      gate := new G.SequenceGate();
      runGate.Clear();
      catalog := new CatalogAssembly();
      publishedStamp, reported, lastSeen := None, None, None;
    }

    method AssertRunState(state: RunState)
      modifies this`lastSubscribe, controller
      ensures View() == old(View()) && Outbox() == O.PressedToggle(old(Outbox()), state)
    {
      controller.Assert(state);
      lastSubscribe := None;
    }

    /** Nothing until a subscription is wanted; then it is handed out once, with the claim of the moment. */
    method SubscribeDue(now: int) returns (due: Option<O.Subscription>)
      modifies this`lastSubscribe, this`subscribeSeq
      ensures View() == old(View()) && (Outbox(), due) == O.Asked(old(Outbox()), now)
    {
      if lastSubscribe.Some? && now - lastSubscribe.value < O.SUBSCRIBE_INTERVAL {
        return None;
      }
      lastSubscribe := Some(now);
      subscribeSeq := subscribeSeq + 1;
      due := Some(O.Subscription(subscribeSeq, controller.Assertion()));
    }
  }
}
