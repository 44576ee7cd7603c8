/** The input queue's producer with its market tap (src/hot/spawn.rs): one message stream written to the hot
    queue and, while the simulator's gate is open, to the tap ring as well. Both consumers pop whenever they
    like, and the gate may close between any two of the producer's steps. */
module Tap {
  import opened Common
  import opened Rings

  datatype Message<T> = Message(stamp: int, body: T)

  /** What travels on the tap: a message with its venue metadata, or a promise that time reached a stamp. */
  datatype TapItem<T, V> = Event(message: Message<T>, meta: V) | Watermark(stamp: int)

  function StampOf<T, V>(item: TapItem<T, V>): int {
    match item
    case Event(message, _) => message.stamp
    case Watermark(stamp) => stamp
  }

  datatype FullRing = Input | MarketTap

  // ---------------------------------------------------------------- the gate and the fatal latch

  datatype Phase = Enabled | Sweeping | Disabled

  function Rank(phase: Phase): nat {
    match phase
    case Enabled => 0
    case Sweeping => 1
    case Disabled => 2
  }

  function Swept(phase: Phase): Phase {
    if phase.Enabled? then Sweeping else phase
  }

  class SimTapGate {
    var phase: Phase

    constructor ()
      ensures phase == Enabled
    {
      phase := Enabled;
    }

    /** A sweep keeps the tap open: only closing it stops the taps. */
    method IsEnabled() returns (enabled: bool)
      ensures enabled <==> Rank(phase) < Rank(Disabled)
    {
      enabled := phase != Disabled;
    }

    method BeginSweep()
      modifies this
      ensures Rank(phase) == Max(Rank(old(phase)), Rank(Sweeping))
    {
      if Rank(phase) < Rank(Sweeping) {
        phase := Sweeping;
      }
    }

    /** Closes the tap whatever the phase; `swept` is the assertion on the phase it replaced. */
    method Disable() returns (swept: bool)
      modifies this
      ensures phase == Disabled && (swept <==> old(phase) != Enabled)
    {
      swept := phase != Enabled;
      phase := Disabled;
    }
  }

  function FirstOf(latched: Option<FullRing>, ring: FullRing): Option<FullRing> {
    if latched.Some? then latched else Some(ring)
  }

  /** The stop latch keeps its first reason. */
  class FatalSignal {
    var reason: Option<FullRing>

    constructor ()
      ensures reason == None
    {
      reason := None;
    }

    method Trip(ring: FullRing)
      modifies this
      ensures reason == FirstOf(old(reason), ring)
      ensures old(reason).Some? ==> reason == old(reason)
      ensures old(reason).None? ==> reason == Some(ring)
    {
      if reason.None? {
        reason := Some(ring);
      }
    }
  }

  // ---------------------------------------------------------------- the producer, one call at a time

  /** What the producer reaches: the two rings, its high-water stamp and the fatal latch. */
  datatype View<T, V> = View(hot: seq<Message<T>>, tap: seq<TapItem<T, V>>, highWater: int, fatal: Option<FullRing>)

  datatype Capacities = Capacities(hot: nat, tap: nat)

  function PushView<T, V>(c: Capacities, v: View<T, V>, message: Message<T>): View<T, V> {
    if |v.hot| < c.hot then v.(hot := v.hot + [message]) else v.(fatal := FirstOf(v.fatal, Input))
  }

  function PushTappedView<T, V>(c: Capacities, v: View<T, V>, tapped: bool, message: Message<T>, meta: V): View<T, V> {
    if !tapped then PushView(c, v, message)
    else if |v.hot| >= c.hot then v.(fatal := FirstOf(v.fatal, Input))
    else if |v.tap| >= c.tap then v.(fatal := FirstOf(v.fatal, MarketTap))
    else v.(hot := v.hot + [message], tap := v.tap + [Event(message, meta)],
            highWater := Max(v.highWater, message.stamp))
  }

  function PushWatermarkView<T, V>(c: Capacities, v: View<T, V>, tapped: bool, stamp: int): View<T, V> {
    if !tapped then v
    else
      var mark := Max(v.highWater, stamp);
      if |v.tap| < c.tap then v.(tap := v.tap + [Watermark(mark)], highWater := mark)
      else v.(highWater := mark, fatal := FirstOf(v.fatal, MarketTap))
  }

  /** A message goes in behind the others while there is room; a full queue takes nothing and says so, once. */
  lemma PushEntersOrTrips<T, V>(c: Capacities, v: View<T, V>, message: Message<T>)
    ensures var v' := PushView(c, v, message);
            && v'.tap == v.tap && v'.highWater == v.highWater
            && (|v.hot| < c.hot ==> v'.hot == v.hot + [message] && v'.fatal == v.fatal)
            && (|v.hot| >= c.hot ==> v'.hot == v.hot && v'.fatal == (if v.fatal.Some? then v.fatal else Some(Input)))
  {
  }

  /** While the tap is open a message goes into both rings, with its metadata, or into neither, and the ring that had
      no room is named; while it is closed, into the hot queue alone. */
  lemma TappedPushEntersBothOrNeither<T, V>(c: Capacities, v: View<T, V>, tapped: bool, message: Message<T>, meta: V)
    ensures var v' := PushTappedView(c, v, tapped, message, meta);
            && (!tapped ==> v' == PushView(c, v, message))
            && (tapped && |v.hot| < c.hot && |v.tap| < c.tap ==>
                  && v'.hot == v.hot + [message] && v'.tap == v.tap + [Event(message, meta)] && v'.fatal == v.fatal
                  && v'.highWater >= v.highWater && v'.highWater >= message.stamp
                  && (v'.highWater == v.highWater || v'.highWater == message.stamp))
            && (tapped && !(|v.hot| < c.hot && |v.tap| < c.tap) ==>
                  && v'.hot == v.hot && v'.tap == v.tap && v'.highWater == v.highWater
                  && v'.fatal == (if v.fatal.Some? then v.fatal
                                  else Some(if |v.hot| >= c.hot then Input else MarketTap)))
  {
  }

  class QueueProducer<T, V> {
    const producer: Ring<Message<T>>
    const fatal: FatalSignal
    const tap: Ring<TapItem<T, V>>
    const gate: SimTapGate
    const hasTap: bool
    var highWater: int

    ghost const capacities: Capacities

    ghost predicate Valid() {
      capacities == Capacities(producer.capacity, tap.capacity)
    }

    ghost function State(): View<T, V>
      reads this, producer, tap, fatal
    {
      View(producer.items, tap.items, highWater, fatal.reason)
    }

    predicate Tapping()
      reads gate
    {
      hasTap && gate.phase != Disabled
    }

    constructor (producer: Ring<Message<T>>, fatal: FatalSignal, hasTap: bool,
                 tap: Ring<TapItem<T, V>>, gate: SimTapGate)
      ensures Valid() && this.producer == producer && this.fatal == fatal
      ensures this.hasTap == hasTap && this.tap == tap && this.gate == gate && highWater == I64_MIN
    {
      this.producer, this.fatal, this.hasTap, this.tap, this.gate := producer, fatal, hasTap, tap, gate;
      highWater := I64_MIN;
      capacities := Capacities(producer.capacity, tap.capacity);
    }

    method Push(message: Message<T>)
      requires Valid()
      modifies producer, fatal
      ensures State() == PushView(capacities, old(State()), message)
    {
      var ok := producer.Push(message);
      if !ok {
        fatal.Trip(Input);
      }
    }

    /** The tap is written before the hot queue. Both assertions of the original are discharged here, where no
        consumer runs; `NeverFails` discharges them with both consumers running. */
    method PushTapped(message: Message<T>, meta: V)
      requires Valid()
      modifies this`highWater, producer, tap, fatal
      ensures State() == PushTappedView(capacities, old(State()), Tapping(), message, meta)
    {
      var enabled := gate.IsEnabled();
      if !hasTap || !enabled {
        Push(message);
        return;
      }
      if |producer.items| >= producer.capacity {
        fatal.Trip(Input);
        return;
      }
      if |tap.items| >= tap.capacity {
        fatal.Trip(MarketTap);
        return;
      }
      highWater := Max(highWater, message.stamp);
      var tapPushed := tap.Push(Event(message, meta));
      assert tapPushed;
      var hotPushed := producer.Push(message);
      assert hotPushed;
    }

    method PushTapWatermark(stamp: int)
      requires Valid()
      modifies this`highWater, tap, fatal
      ensures State() == PushWatermarkView(capacities, old(State()), Tapping(), stamp)
    {
      var enabled := gate.IsEnabled();
      if !hasTap || !enabled {
        return;
      }
      highWater := Max(highWater, stamp);
      var ok := tap.Push(Watermark(highWater));
      if !ok {
        fatal.Trip(MarketTap);
      }
    }
  }

  // ---------------------------------------------------------------- the producer, one step at a time

  /** Where the producer stands inside a call. */
  datatype Stage<T, V> =
    | AtRest
    | PushHot(message: Message<T>)
    | AskGate(message: Message<T>, meta: V)
    | AskHot(message: Message<T>, meta: V)
    | AskTap(message: Message<T>, meta: V)
    | Raise(message: Message<T>, meta: V)
    | FillTap(message: Message<T>, meta: V)
    | FillHot(message: Message<T>)
    | AskGateToMark(stamp: int)
    | RaiseToMark(stamp: int)
    | Mark(stamp: int)

  /** An entry of the hot queue's history, and whether it went through the tap. */
  datatype Entry<T> = Entry(message: Message<T>, tapped: bool)

  /** Both rings as histories with a pop count; `failed` records a fired assertion. */
  datatype System<T, V> = System(
    hot: seq<Entry<T>>, hotPopped: nat,
    tap: seq<TapItem<T, V>>, tapPopped: nat,
    highWater: int, phase: Phase, fatal: Option<FullRing>, stage: Stage<T, V>, failed: bool)

  datatype Step<T, V> =
    | CallPush(message: Message<T>)
    | CallPushTapped(message: Message<T>, meta: V)
    | CallWatermark(stamp: int)
    | Produce
    | PopHot
    | PopTap
    | BeginSweep
    | Disable

  datatype Setup = Setup(capacities: Capacities, hasTap: bool)

  function Start<T, V>(): System<T, V> {
    System([], 0, [], 0, I64_MIN, Enabled, None, AtRest, false)
  }

  predicate HotHasRoom<T, V>(c: Capacities, s: System<T, V>) {
    |s.hot| < s.hotPopped + c.hot
  }

  predicate TapHasRoom<T, V>(c: Capacities, s: System<T, V>) {
    |s.tap| < s.tapPopped + c.tap
  }

  function Signal<T, V>(s: System<T, V>, ring: FullRing): System<T, V> {
    s.(fatal := FirstOf(s.fatal, ring), stage := AtRest)
  }

  /** The producer's next step. */
  function Produced<T, V>(setup: Setup, s: System<T, V>): System<T, V> {
    var c := setup.capacities;
    match s.stage
    case AtRest => s
    case PushHot(m) =>
      if HotHasRoom(c, s) then s.(hot := s.hot + [Entry(m, false)], stage := AtRest) else Signal(s, Input)
    case AskGate(m, v) => s.(stage := if !setup.hasTap || s.phase.Disabled? then PushHot(m) else AskHot(m, v))
    case AskHot(m, v) => if HotHasRoom(c, s) then s.(stage := AskTap(m, v)) else Signal(s, Input)
    case AskTap(m, v) => if TapHasRoom(c, s) then s.(stage := Raise(m, v)) else Signal(s, MarketTap)
    case Raise(m, v) => s.(highWater := Max(s.highWater, m.stamp), stage := FillTap(m, v))
    case FillTap(m, v) =>
      if TapHasRoom(c, s) then s.(tap := s.tap + [Event(m, v)], stage := FillHot(m))
      else s.(failed := true, stage := AtRest)
    case FillHot(m) =>
      if HotHasRoom(c, s) then s.(hot := s.hot + [Entry(m, true)], stage := AtRest)
      else s.(failed := true, stage := AtRest)
    case AskGateToMark(stamp) => s.(stage := if !setup.hasTap || s.phase.Disabled? then AtRest else RaiseToMark(stamp))
    case RaiseToMark(stamp) => s.(highWater := Max(s.highWater, stamp), stage := Mark(stamp))
    case Mark(stamp) =>
      if TapHasRoom(c, s) then s.(tap := s.tap + [Watermark(s.highWater)], stage := AtRest) else Signal(s, MarketTap)
  }

  /** One step of the producer, a consumer or the gate's owner. A call starts only when the last one ended. */
  function Next<T, V>(setup: Setup, s: System<T, V>, step: Step<T, V>): System<T, V> {
    match step
    case CallPush(m) => if s.stage.AtRest? then s.(stage := PushHot(m)) else s
    case CallPushTapped(m, v) => if s.stage.AtRest? then s.(stage := AskGate(m, v)) else s
    case CallWatermark(stamp) => if s.stage.AtRest? then s.(stage := AskGateToMark(stamp)) else s
    case Produce => Produced(setup, s)
    case PopHot => if s.hotPopped < |s.hot| then s.(hotPopped := s.hotPopped + 1) else s
    case PopTap => if s.tapPopped < |s.tap| then s.(tapPopped := s.tapPopped + 1) else s
    case BeginSweep => s.(phase := Swept(s.phase))
    case Disable => s.(phase := Disabled)
  }

  function Run<T, V>(setup: Setup, s: System<T, V>, steps: seq<Step<T, V>>): System<T, V>
    decreases |steps|
  {
    if steps == [] then s else Next(setup, Run(setup, s, steps[..|steps| - 1]), steps[|steps| - 1])
  }

  // ---------------------------------------------------------------- what every run keeps

  function Events<T, V>(tap: seq<TapItem<T, V>>): seq<Message<T>> {
    if tap == [] then []
    else Events(tap[..|tap| - 1]) + if tap[|tap| - 1].Event? then [tap[|tap| - 1].message] else []
  }

  function TappedOf<T>(hot: seq<Entry<T>>): seq<Message<T>> {
    if hot == [] then []
    else TappedOf(hot[..|hot| - 1]) + if hot[|hot| - 1].tapped then [hot[|hot| - 1].message] else []
  }

  /** The one message a call may have put on the tap and not yet on the hot queue. */
  function InFlight<T, V>(stage: Stage<T, V>): seq<Message<T>> {
    if stage.FillHot? then [stage.message] else []
  }

  ghost predicate Paired<T, V>(s: System<T, V>) {
    Events(s.tap) == TappedOf(s.hot) + InFlight(s.stage)
  }

  ghost predicate Bounded<T, V>(c: Capacities, s: System<T, V>) {
    && s.hotPopped <= |s.hot| <= s.hotPopped + c.hot
    && s.tapPopped <= |s.tap| <= s.tapPopped + c.tap
  }

  /** Room once seen stays: the consumers only make more. */
  ghost predicate RoomKept<T, V>(c: Capacities, s: System<T, V>) {
    && !s.failed
    && (s.stage.AskTap? || s.stage.Raise? || s.stage.FillTap? || s.stage.FillHot? ==> HotHasRoom(c, s))
    && (s.stage.Raise? || s.stage.FillTap? ==> TapHasRoom(c, s))
  }

  /** A watermark is at least every stamp before it on the tap, and the high water at least all of them. */
  ghost predicate Ordered<T, V>(tap: seq<TapItem<T, V>>, highWater: int) {
    && (forall i :: 0 <= i < |tap| ==> StampOf(tap[i]) <= highWater)
    && (forall i, j :: 0 <= i < j < |tap| && tap[j].Watermark? ==> StampOf(tap[i]) <= tap[j].stamp)
  }

  ghost predicate Raised<T, V>(s: System<T, V>) {
    && Ordered(s.tap, s.highWater)
    && (s.stage.FillTap? ==> s.stage.message.stamp <= s.highWater)
    && (s.stage.Mark? ==> s.stage.stamp <= s.highWater)
  }

  ghost predicate Kept<T, V>(c: Capacities, s: System<T, V>) {
    Paired(s) && Bounded(c, s) && RoomKept(c, s) && Raised(s)
  }

  lemma EventsSnoc<T, V>(tap: seq<TapItem<T, V>>, item: TapItem<T, V>)
    ensures Events(tap + [item]) == Events(tap) + if item.Event? then [item.message] else []
  {
  }

  lemma TappedSnoc<T>(hot: seq<Entry<T>>, entry: Entry<T>)
    ensures TappedOf(hot + [entry]) == TappedOf(hot) + if entry.tapped then [entry.message] else []
  {
  }

  lemma PairedStep<T, V>(setup: Setup, s: System<T, V>, step: Step<T, V>)
    requires Paired(s) && RoomKept(setup.capacities, s)
    ensures Paired(Next(setup, s, step))
  {
    hide Events, TappedOf;
    if step.Produce? {
      match s.stage
      case PushHot(m) => TappedSnoc(s.hot, Entry(m, false));
      case FillTap(m, v) => EventsSnoc(s.tap, Event(m, v));
      case FillHot(m) => TappedSnoc(s.hot, Entry(m, true));
      case Mark(stamp) => EventsSnoc(s.tap, TapItem<T, V>.Watermark(s.highWater));
      case _ =>
    }
  }

  lemma BoundedStep<T, V>(setup: Setup, s: System<T, V>, step: Step<T, V>)
    requires Bounded(setup.capacities, s) && RoomKept(setup.capacities, s)
    ensures Bounded(setup.capacities, Next(setup, s, step)) && RoomKept(setup.capacities, Next(setup, s, step))
  {
  }

  lemma OrderedSnoc<T, V>(tap: seq<TapItem<T, V>>, item: TapItem<T, V>, highWater: int)
    requires Ordered(tap, highWater) && StampOf(item) <= highWater && (item.Watermark? ==> item.stamp == highWater)
    ensures Ordered(tap + [item], highWater)
  {
  }

  lemma Loosened<T, V>(tap: seq<TapItem<T, V>>, highWater: int, higher: int)
    requires Ordered(tap, highWater) && highWater <= higher
    ensures Ordered(tap, higher)
  {
  }

  lemma RaisedStep<T, V>(setup: Setup, s: System<T, V>, step: Step<T, V>)
    requires Raised(s)
    ensures Raised(Next(setup, s, step)) && s.highWater <= Next(setup, s, step).highWater
  {
    hide Ordered;
    if step.Produce? {
      match s.stage
      case FillTap(m, v) => OrderedSnoc(s.tap, Event(m, v), s.highWater);
      case Mark(stamp) => OrderedSnoc(s.tap, TapItem<T, V>.Watermark(s.highWater), s.highWater);
      case Raise(m, v) => Loosened(s.tap, s.highWater, Max(s.highWater, m.stamp));
      case RaiseToMark(stamp) => Loosened(s.tap, s.highWater, Max(s.highWater, stamp));
      case _ =>
    }
  }

  lemma {:induction false} EveryRunIsKept<T, V>(setup: Setup, steps: seq<Step<T, V>>)
    ensures Kept(setup.capacities, Run(setup, Start<T, V>(), steps))
    decreases |steps|
  {
    if steps != [] {
      var before := Run(setup, Start<T, V>(), steps[..|steps| - 1]);
      hide Next, Paired, Bounded, RoomKept, Raised;
      EveryRunIsKept(setup, steps[..|steps| - 1]);
      PairedStep(setup, before, steps[|steps| - 1]);
      BoundedStep(setup, before, steps[|steps| - 1]);
      RaisedStep(setup, before, steps[|steps| - 1]);
    }
  }

  // ---------------------------------------------------------------- the theorems

  /** Neither ring fills between its check and its push, so neither assertion fires. */
  lemma NeverFails<T, V>(setup: Setup, steps: seq<Step<T, V>>)
    ensures !Run(setup, Start<T, V>(), steps).failed
  {
    hide Next;
    EveryRunIsKept(setup, steps);
  }

  /** The tapped messages on the hot queue are a prefix of those on the tap, at most one behind, and between
      calls exactly the same: a tapped message enters both rings or neither. */
  lemma BothRingsAgree<T, V>(setup: Setup, steps: seq<Step<T, V>>)
    ensures var s := Run(setup, Start<T, V>(), steps);
            && TappedOf(s.hot) <= Events(s.tap)
            && |Events(s.tap)| <= |TappedOf(s.hot)| + 1
            && (s.stage.AtRest? ==> Events(s.tap) == TappedOf(s.hot))
  {
    hide Next;
    EveryRunIsKept(setup, steps);
  }

  /** A watermark promises no less than every stamp tapped before it. */
  lemma WatermarksBound<T, V>(setup: Setup, steps: seq<Step<T, V>>, i: nat, j: nat)
    requires i < j < |Run(setup, Start<T, V>(), steps).tap|
    requires Run(setup, Start<T, V>(), steps).tap[j].Watermark?
    ensures var tap := Run(setup, Start<T, V>(), steps).tap;
            StampOf(tap[i]) <= tap[j].stamp
  {
    hide Next;
    EveryRunIsKept(setup, steps);
  }

  /** Items a call has committed to the tap before the gate closed. */
  function Committed<T, V>(stage: Stage<T, V>): nat {
    match stage
    case AskHot(_, _) => 1
    case AskTap(_, _) => 1
    case Raise(_, _) => 1
    case FillTap(_, _) => 1
    case RaiseToMark(_) => 1
    case Mark(_) => 1
    case _ => 0
  }

  /** Once closed the tap stays closed: whatever follows, only the call already past the gate adds to it. */
  lemma {:induction false} ClosingIsFinal<T, V>(setup: Setup, s: System<T, V>, steps: seq<Step<T, V>>)
    requires s.phase.Disabled?
    ensures var later := Run(setup, s, steps);
            && later.phase.Disabled?
            && s.tap <= later.tap
            && |later.tap| + Committed(later.stage) <= |s.tap| + Committed(s.stage)
    decreases |steps|
  {
    if steps != [] {
      ClosingIsFinal(setup, s, steps[..|steps| - 1]);
    }
  }

  lemma PhaseStep<T, V>(setup: Setup, s: System<T, V>, step: Step<T, V>)
    ensures Next(setup, s, step).phase
            == if step.Disable? then Disabled else if step.BeginSweep? then Swept(s.phase) else s.phase
  {
  }

  /** The gate's phase is the furthest step its owner has taken, so `Disable`'s assertion fires exactly when
      neither a sweep nor a close came before it. */
  lemma {:induction false} PhaseIsTheFurthest<T, V>(setup: Setup, steps: seq<Step<T, V>>)
    ensures var phase := Run(setup, Start<T, V>(), steps).phase;
            && (phase.Disabled? <==> Disable in steps)
            && (phase.Enabled? <==> BeginSweep !in steps && Disable !in steps)
    decreases |steps|
  {
    if steps != [] {
      var init, last := steps[..|steps| - 1], steps[|steps| - 1];
      PhaseIsTheFurthest(setup, init);
      PhaseStep(setup, Run(setup, Start<T, V>(), init), last);
      hide Next;
      assert steps == init + [last];
    }
  }

  // ---------------------------------------------------------------- nothing is lost quietly

  /** The message a call still has to put on the hot queue. */
  function Carried<T, V>(stage: Stage<T, V>): seq<Message<T>> {
    match stage
    case PushHot(m) => [m]
    case AskGate(m, _) => [m]
    case AskHot(m, _) => [m]
    case AskTap(m, _) => [m]
    case Raise(m, _) => [m]
    case FillTap(m, _) => [m]
    case FillHot(m) => [m]
    case _ => []
  }

  /** The messages the producer was called with, in order: a call made while another is under way is not one. */
  function Calls<T, V>(setup: Setup, steps: seq<Step<T, V>>): seq<Message<T>>
    decreases |steps|
  {
    if steps == [] then []
    else
      var front, last := steps[..|steps| - 1], steps[|steps| - 1];
      var before := Calls(setup, front);
      if !Run(setup, Start<T, V>(), front).stage.AtRest? then before
      else match last
           case CallPush(m) => before + [m]
           case CallPushTapped(m, _) => before + [m]
           case _ => before
  }

  function AllMessages<T>(hot: seq<Entry<T>>): seq<Message<T>> {
    if hot == [] then [] else AllMessages(hot[..|hot| - 1]) + [hot[|hot| - 1].message]
  }

  lemma AllMessagesSnoc<T>(hot: seq<Entry<T>>, entry: Entry<T>)
    ensures AllMessages(hot + [entry]) == AllMessages(hot) + [entry.message]
  {
    assert (hot + [entry])[..|hot|] == hot;
  }

  /** A step names a ring only when it is full, and the first name stays. */
  lemma OnlyFullRingsTrip<T, V>(setup: Setup, s: System<T, V>, step: Step<T, V>)
    requires Bounded(setup.capacities, s)
    ensures var fatal := Next(setup, s, step).fatal;
            && (s.fatal.Some? ==> fatal == s.fatal)
            && (s.fatal.None? && fatal == Some(Input) ==> |s.hot| - s.hotPopped == setup.capacities.hot)
            && (s.fatal.None? && fatal == Some(MarketTap) ==> |s.tap| - s.tapPopped == setup.capacities.tap)
  {
  }

  /** The producer only moves what it carries: onto the hot queue, or one stage on. */
  lemma ProducedCarries<T, V>(setup: Setup, s: System<T, V>)
    requires RoomKept(setup.capacities, s) && Produced(setup, s).fatal.None?
    ensures var s' := Produced(setup, s);
            AllMessages(s'.hot) + Carried(s'.stage) == AllMessages(s.hot) + Carried(s.stage)
  {
    hide AllMessages;
    assert AllMessages(s.hot) + [] == AllMessages(s.hot);
    if s.stage.PushHot? || s.stage.FillHot? {
      AllMessagesSnoc(s.hot, Entry(s.stage.message, s.stage.FillHot?));
      assert AllMessages(s.hot) + [s.stage.message] + [] == AllMessages(s.hot) + [s.stage.message];
    }
  }

  lemma StepCarries<T, V>(setup: Setup, s: System<T, V>, step: Step<T, V>, before: seq<Message<T>>)
    requires RoomKept(setup.capacities, s) && AllMessages(s.hot) + Carried(s.stage) == before
    requires Next(setup, s, step).fatal.None?
    ensures var s' := Next(setup, s, step);
            AllMessages(s'.hot) + Carried(s'.stage)
            == before + if !s.stage.AtRest? then []
                        else match step case CallPush(m) => [m] case CallPushTapped(m, _) => [m] case _ => []
  {
    hide AllMessages, Produced, RoomKept;
    assert before + [] == before && AllMessages(s.hot) + [] == AllMessages(s.hot);
    if step.Produce? {
      ProducedCarries(setup, s);
    }
  }

  lemma FatalStays<T, V>(setup: Setup, s: System<T, V>, step: Step<T, V>)
    ensures Next(setup, s, step).fatal.None? ==> s.fatal.None?
  {
  }

  /** Unless a ring was found full, every message the producer was called with is on the hot queue, once and in order,
      but for the one it is still carrying. */
  lemma {:induction false} NothingIsLostQuietly<T, V>(setup: Setup, steps: seq<Step<T, V>>)
    ensures var s := Run(setup, Start<T, V>(), steps);
            s.fatal.None? ==> AllMessages(s.hot) + Carried(s.stage) == Calls(setup, steps)
    decreases |steps|
  {
    hide Next, AllMessages, Carried, Kept, RoomKept;
    if steps == [] {
      NothingCarriedAtFirst<T, V>();
    } else {
      var front, last := steps[..|steps| - 1], steps[|steps| - 1];
      var before := Run(setup, Start<T, V>(), front);
      NothingIsLostQuietly(setup, front);
      FatalStays(setup, before, last);
      RoomIsKept(setup, front);
      if Next(setup, before, last).fatal.None? {
        StepCarries(setup, before, last, Calls(setup, front));
        assert Calls(setup, front) + [] == Calls(setup, front);
      }
    }
  }

  lemma NothingCarriedAtFirst<T, V>()
    ensures AllMessages(Start<T, V>().hot) + Carried(Start<T, V>().stage) == []
  {
  }

  lemma RoomIsKept<T, V>(setup: Setup, steps: seq<Step<T, V>>)
    ensures RoomKept(setup.capacities, Run(setup, Start<T, V>(), steps))
  {
    EveryRunIsKept(setup, steps);
    hide Paired, Bounded, RoomKept, Raised, Run;
  }

  // ---------------------------------------------------------------- steps and calls are one producer

  function Messages<T>(hot: seq<Entry<T>>): seq<Message<T>> {
    seq(|hot|, i requires 0 <= i < |hot| => hot[i].message)
  }

  function ViewOf<T, V>(s: System<T, V>): View<T, V>
    requires s.hotPopped <= |s.hot| && s.tapPopped <= |s.tap|
  {
    View(Messages(s.hot[s.hotPopped..]), s.tap[s.tapPopped..], s.highWater, s.fatal)
  }

  /** The producer alone, until its call ends: six steps are the longest call. */
  function Finished<T, V>(setup: Setup, s: System<T, V>, left: nat): System<T, V>
    decreases left
  {
    if left == 0 then s else Finished(setup, Produced(setup, s), left - 1)
  }

  lemma LastMessage<T>(hot: seq<Entry<T>>, popped: nat, last: Entry<T>)
    requires popped <= |hot|
    ensures Messages((hot + [last])[popped..]) == Messages(hot[popped..]) + [last.message]
  {
  }

  lemma LastItem<A>(tap: seq<A>, popped: nat, last: A)
    requires popped <= |tap|
    ensures (tap + [last])[popped..] == tap[popped..] + [last]
  {
  }

  lemma {:induction false} RestStays<T, V>(setup: Setup, s: System<T, V>, left: nat)
    requires s.stage.AtRest?
    ensures Finished(setup, s, left) == s
    decreases left
  {
    if left > 0 {
      RestStays(setup, s, left - 1);
    }
  }

  lemma RoomIsUsed<T, V>(setup: Setup, s: System<T, V>)
    requires s.stage.Raise? && HotHasRoom(setup.capacities, s) && TapHasRoom(setup.capacities, s)
    ensures Finished(setup, s, 3)
            == s.(highWater := Max(s.highWater, s.stage.message.stamp), stage := AtRest,
                  tap := s.tap + [Event(s.stage.message, s.stage.meta)], hot := s.hot + [Entry(s.stage.message, true)])
  {
  }

  /** Where a tapped push that nothing interrupts ends. */
  lemma CallEnds<T, V>(setup: Setup, s: System<T, V>, message: Message<T>, meta: V)
    requires s.stage.AtRest?
    ensures var tapped := setup.hasTap && !s.phase.Disabled?;
            Finished(setup, Next(setup, s, CallPushTapped(message, meta)), 6)
            == if !HotHasRoom(setup.capacities, s) then Signal(s, Input)
               else if !tapped then s.(hot := s.hot + [Entry(message, false)])
               else if !TapHasRoom(setup.capacities, s) then Signal(s, MarketTap)
               else s.(highWater := Max(s.highWater, message.stamp),
                       tap := s.tap + [Event(message, meta)], hot := s.hot + [Entry(message, true)])
  {
    var asked := Produced(setup, Next(setup, s, CallPushTapped(message, meta)));
    var pushed := Produced(setup, asked);
    var checked := Produced(setup, pushed);
    assert Finished(setup, asked, 5) == Finished(setup, pushed, 4) == Finished(setup, checked, 3);
    if pushed.stage.AtRest? {
      RestStays(setup, pushed, 4);
    } else if checked.stage.AtRest? {
      RestStays(setup, checked, 3);
    } else {
      RoomIsUsed(setup, checked);
    }
  }

  /** Left alone, the steps of a tapped push add up to the call. */
  lemma StepsAreTheCall<T, V>(setup: Setup, s: System<T, V>, message: Message<T>, meta: V)
    requires s.stage.AtRest? && Bounded(setup.capacities, s)
    ensures var done := Finished(setup, Next(setup, s, CallPushTapped(message, meta)), 6);
            && done.stage.AtRest? && done.failed == s.failed && Bounded(setup.capacities, done)
            && ViewOf(done)
               == PushTappedView(setup.capacities, ViewOf(s), setup.hasTap && !s.phase.Disabled?, message, meta)
  {
    hide Next, Finished;
    CallEnds(setup, s, message, meta);
    LastMessage(s.hot, s.hotPopped, Entry(message, setup.hasTap && !s.phase.Disabled?));
    LastItem(s.tap, s.tapPopped, Event(message, meta));
  }

  /** The same of a plain push. */
  lemma StepsAreThePlainCall<T, V>(setup: Setup, s: System<T, V>, message: Message<T>)
    requires s.stage.AtRest? && Bounded(setup.capacities, s)
    ensures var done := Produced(setup, Next(setup, s, CallPush(message)));
            && done.stage.AtRest? && done.failed == s.failed && Bounded(setup.capacities, done)
            && ViewOf(done) == PushView(setup.capacities, ViewOf(s), message)
  {
    LastMessage(s.hot, s.hotPopped, Entry(message, false));
    hide Messages;
  }

  /** And of a watermark: it asks the gate, raises the high water and promises it. */
  lemma StepsAreTheWatermark<T, V>(setup: Setup, s: System<T, V>, stamp: int)
    requires s.stage.AtRest? && Bounded(setup.capacities, s)
    ensures var done := Finished(setup, Next(setup, s, CallWatermark(stamp)), 3);
            && done.stage.AtRest? && done.failed == s.failed && Bounded(setup.capacities, done)
            && ViewOf(done)
               == PushWatermarkView(setup.capacities, ViewOf(s), setup.hasTap && !s.phase.Disabled?, stamp)
  {
    var called := Next(setup, s, CallWatermark(stamp));
    var asked := Produced(setup, called);
    var raised := Produced(setup, asked);
    assert Finished(setup, called, 3) == Finished(setup, asked, 2);
    assert Finished(setup, asked, 2) == Finished(setup, raised, 1) == Produced(setup, raised);
    LastItem(s.tap, s.tapPopped, TapItem<T, V>.Watermark(Max(s.highWater, stamp)));
    hide Messages, Finished;
  }

  /** While the tap is open and has room, a watermark promises at least what it was called with and at least every
      stamp already promised or sent; the tap stays in order either way. */
  lemma WatermarkCallKeepsOrder<T, V>(c: Capacities, v: View<T, V>, tapped: bool, stamp: int)
    requires Ordered(v.tap, v.highWater)
    ensures var v' := PushWatermarkView(c, v, tapped, stamp);
            && Ordered(v'.tap, v'.highWater) && v'.hot == v.hot
            && (!tapped ==> v' == v)
            && (tapped ==> v'.highWater >= v.highWater && v'.highWater >= stamp
                           && (v'.highWater == v.highWater || v'.highWater == stamp))
            && (tapped && |v.tap| < c.tap ==> v'.tap == v.tap + [Watermark(v'.highWater)] && v'.fatal == v.fatal)
            && (tapped && |v.tap| >= c.tap ==>
                  v'.tap == v.tap && v'.fatal == (if v.fatal.Some? then v.fatal else Some(MarketTap)))
  {
    Loosened(v.tap, v.highWater, Max(v.highWater, stamp));
    OrderedSnoc(v.tap, TapItem<T, V>.Watermark(Max(v.highWater, stamp)), Max(v.highWater, stamp));
    hide Ordered;
  }

  /** A consumer takes the oldest item there is, and only that. */
  lemma PopsTakeTheOldest<T, V>(setup: Setup, s: System<T, V>)
    requires Bounded(setup.capacities, s)
    ensures var v, hot, tap := ViewOf(s), Next(setup, s, Step<T, V>.PopHot), Next(setup, s, Step<T, V>.PopTap);
            && Bounded(setup.capacities, hot) && Bounded(setup.capacities, tap)
            && ViewOf(hot) == v.(hot := if v.hot == [] then [] else v.hot[1..])
            && ViewOf(tap) == v.(tap := if v.tap == [] then [] else v.tap[1..])
  {
    if s.hotPopped < |s.hot| {
      assert Messages(s.hot[s.hotPopped..])[1..] == Messages(s.hot[s.hotPopped + 1..]);
    }
    if s.tapPopped < |s.tap| {
      assert s.tap[s.tapPopped..][1..] == s.tap[s.tapPopped + 1..];
    }
  }
}
