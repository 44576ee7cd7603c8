/** Run control over a lossy lane (src/shutdown.rs, src/link/actor/mod.rs, src/hot/dispatch/gate.rs): the link
    latches the highest-epoch assertion as desired, pushes a marker while the hot thread's acknowledgement
    differs, and the hot thread applies the markers that reach it. */
module RunControl {
  import opened Common
  import opened Rings

  /** Bit 63 of a 64-bit word. */
  const IDLE_BIT: U64 := 0x8000_0000_0000_0000

  /** The run state with the controller epoch that asserted it; the highest epoch wins. */
  datatype RunAssertion = RunAssertion(state: RunState, epoch: U64)

  const INITIAL := RunAssertion(Running, 0)

  // ---------------------------------------------------------------- one word per assertion

  function SetIdleBit(word: U64): U64 {
    if word < IDLE_BIT then word + IDLE_BIT else word
  }

  function ClearIdleBit(word: U64): U64 {
    if word < IDLE_BIT then word else word - IDLE_BIT
  }

  function Pack(assertion: RunAssertion): U64 {
    match assertion.state
    case Running => assertion.epoch
    case Idle => SetIdleBit(assertion.epoch)
  }

  function Unpack(word: U64): RunAssertion {
    RunAssertion(if word < IDLE_BIT then Running else Idle, ClearIdleBit(word))
  }

  /** The epochs a word has room for. */
  predicate Fits(assertion: RunAssertion) {
    assertion.epoch < IDLE_BIT
  }

  /** A word gives back the assertion packed into it exactly when the epoch leaves the state its bit. */
  lemma RoundTripsExactly(assertion: RunAssertion)
    ensures Unpack(Pack(assertion)) == assertion <==> Fits(assertion)
  {
  }

  /** Every word is one assertion whose epoch fits. */
  lemma WordsRoundTrip(word: U64)
    ensures Fits(Unpack(word)) && Pack(Unpack(word)) == word
  {
  }

  // ---------------------------------------------------------------- the cells

  /** The highest epoch wins. */
  function Accept(cell: U64, assertion: RunAssertion): U64 {
    if assertion.epoch <= Unpack(cell).epoch then cell else Pack(assertion)
  }

  class RunStateCell {
    var packed: U64

    constructor ()
      ensures packed == Pack(INITIAL) && Load() == INITIAL
    {
      packed := Pack(INITIAL);
    }

    function Load(): RunAssertion
      reads this
    {
      Unpack(packed)
    }

    method Store(assertion: RunAssertion)
      modifies this
      ensures packed == Pack(assertion) && (Load() == assertion <==> Fits(assertion))
    {
      hide Unpack;
      RoundTripsExactly(assertion);
      packed := Pack(assertion);
    }

    /** `accepted` is false when another claim already holds that epoch or a later one. */
    method AcceptIfNewer(assertion: RunAssertion) returns (accepted: bool)
      modifies this
      ensures packed == Accept(old(packed), assertion)
      ensures accepted <==> assertion.epoch > old(Load()).epoch
      ensures accepted && Fits(assertion) ==> Load() == assertion
      ensures !accepted ==> packed == old(packed)
    {
      hide Unpack, Pack;
      if assertion.epoch <= Load().epoch {
        return false;
      }
      Store(assertion);
      accepted := true;
    }
  }

  /** The marker still to push: what is desired, until it is acknowledged. */
  function Pending(desired: U64, acknowledged: U64): Option<RunAssertion> {
    if Unpack(desired) == Unpack(acknowledged) then None else Some(Unpack(desired))
  }

  class RunControlGate {
    const desired: RunStateCell
    const acknowledged: RunStateCell

    constructor ()
      ensures fresh(desired) && fresh(acknowledged) && desired != acknowledged
      ensures desired.packed == acknowledged.packed == Pack(INITIAL)
    {
      desired := new RunStateCell();
      acknowledged := new RunStateCell();
    }

    method PendingMarker() returns (marker: Option<RunAssertion>)
      ensures marker == Pending(desired.packed, acknowledged.packed)
      ensures marker.Some? ==> marker.value == desired.Load() && marker.value != acknowledged.Load()
    {
      var wanted := desired.Load();
      marker := if wanted != acknowledged.Load() then Some(wanted) else None;
    }
  }

  // ---------------------------------------------------------------- the loop, as a value

  /** Both cells, the state the hot thread runs under, and the markers on the lane. */
  datatype Control = Control(desired: U64, acknowledged: U64, run: RunAssertion, lane: seq<RunAssertion>)

  function Asserted(c: Control, assertion: RunAssertion): Control {
    c.(desired := Accept(c.desired, assertion))
  }

  /** With no room on the lane the marker is lost, and the loss counted. */
  function Marked(c: Control, room: bool): Control {
    var marker := Pending(c.desired, c.acknowledged);
    if marker.Some? && room then c.(lane := c.lane + [marker.value]) else c
  }

  /** A marker counts once per epoch; the acknowledgement is published whether or not it did. */
  function Applied(run: RunAssertion, marker: RunAssertion): RunAssertion {
    if marker.epoch > run.epoch then marker else run
  }

  function Dispatched(c: Control): Control {
    if c.lane == [] then c
    else
      var run := Applied(c.run, c.lane[0]);
      c.(lane := c.lane[1..], run := run, acknowledged := Pack(run))
  }

  /** The dead-man assertion: idle, one epoch past the desired one. */
  function DeadMan(c: Control): RunAssertion {
    RunAssertion(Idle, Unpack(c.desired).epoch + 1)
  }

  const PEER_SILENCE_LIMIT: int := 5_000_000

  datatype ControllerLoss = Hold | Park

  /** The link actor's side. */
  class LinkControl {
    const control: RunControlGate
    const inbound: Ring<RunAssertion>
    const onControllerLoss: ControllerLoss
    var dropped: nat
    var lastControlTs: Option<int>
    var isControllerLost: bool

    ghost function State(run: RunAssertion): Control
      reads control.desired, control.acknowledged, inbound
    {
      Control(control.desired.packed, control.acknowledged.packed, run, inbound.items)
    }

    ghost predicate Valid()
    {
      control.desired != control.acknowledged
    }

    constructor (control: RunControlGate, inbound: Ring<RunAssertion>, onControllerLoss: ControllerLoss)
      requires control.desired != control.acknowledged
      ensures Valid() && this.control == control && this.inbound == inbound && dropped == 0
      ensures this.onControllerLoss == onControllerLoss && lastControlTs == None && !isControllerLost
    {
      this.control, this.inbound, this.onControllerLoss := control, inbound, onControllerLoss;
      dropped, lastControlTs, isControllerLost := 0, None, false;
    }

    method PushMarkerIfNeeded(ghost run: RunAssertion)
      requires Valid()
      modifies this`dropped, inbound
      ensures State(run) == Marked(old(State(run)), |old(inbound.items)| < inbound.capacity)
      ensures dropped == old(dropped)
                         + if Pending(control.desired.packed, control.acknowledged.packed).Some?
                              && |old(inbound.items)| >= inbound.capacity then 1 else 0
    {
      hide Unpack, Pack;
      var marker := control.PendingMarker();
      if marker.None? {
        return;
      }
      var ok := inbound.Push(marker.value);
      if !ok {
        dropped := dropped + 1;
      }
    }

    /** A subscription at epoch zero claims no control. Any other shows the controller alive, wins or not. */
    method OnSubscribe(assertion: RunAssertion, now: int, ghost run: RunAssertion)
      requires Valid()
      modifies this`dropped, this`lastControlTs, this`isControllerLost, control.desired, inbound
      ensures State(run) == if assertion.epoch == 0 then old(State(run))
                            else Marked(Asserted(old(State(run)), assertion), |old(inbound.items)| < inbound.capacity)
      ensures assertion.epoch == 0 ==> lastControlTs == old(lastControlTs) && isControllerLost == old(isControllerLost)
      ensures assertion.epoch != 0 ==> lastControlTs == Some(now) && !isControllerLost
    {
      hide Unpack, Pack, Accept, Pending;
      if assertion.epoch == 0 {
        return;
      }
      lastControlTs, isControllerLost := Some(now), false;
      var accepted := control.desired.AcceptIfNewer(assertion);
      PushMarkerIfNeeded(run);
    }

    /** Heard once, silent for the limit since, and not yet given up. */
    predicate LossIsDue(now: int): (due: bool)
      reads this
      ensures due <==>
              match lastControlTs
              case None => false
              case Some(last) => now >= last + PEER_SILENCE_LIMIT && !isControllerLost
    {
      lastControlTs.Some? && now - lastControlTs.value >= PEER_SILENCE_LIMIT && !isControllerLost
    }

    /** A controller is given up at most once per silence, never before it was first heard, and parks the engine
        only where the run was configured to. */
    method CheckController(now: int, ghost run: RunAssertion)
      requires Valid()
      modifies this`dropped, this`isControllerLost, control.desired, inbound
      ensures isControllerLost == (old(isControllerLost) || old(LossIsDue(now)))
      ensures var before := old(State(run));
              State(run) == if old(LossIsDue(now)) && onControllerLoss.Park?
                            then Marked(Asserted(before, DeadMan(before)), |before.lane| < inbound.capacity)
                            else before
    {
      hide Unpack, Pack, Accept, Pending;
      if !LossIsDue(now) {
        return;
      }
      isControllerLost := true;
      if onControllerLoss.Hold? {
        return;
      }
      WordsRoundTrip(control.desired.packed);
      var epoch := control.desired.Load().epoch + 1;
      var accepted := control.desired.AcceptIfNewer(RunAssertion(Idle, epoch));
      PushMarkerIfNeeded(run);
    }
  }

  /** The hot thread's side. */
  class HotRun {
    var run: RunAssertion
    const report: RunStateCell

    constructor (report: RunStateCell)
      ensures run == INITIAL && this.report == report
    {
      run, this.report := INITIAL, report;
    }

    method OnRunControl(marker: RunAssertion)
      modifies this, report
      ensures run == Applied(old(run), marker) && report.packed == Pack(run)
    {
      hide Unpack, Pack;
      if marker.epoch > run.epoch {
        run := marker;
      }
      report.Store(run);
    }
  }

  /** The hot thread takes the oldest marker there is, runs under it if its epoch is higher, and publishes what it runs
      under either way. */
  lemma MarkersAreTakenInOrder(c: Control)
    ensures c.lane == [] ==> Dispatched(c) == c
    ensures c.lane != [] ==>
              var c', marker := Dispatched(c), c.lane[0];
              && c'.lane == c.lane[1..] && c'.desired == c.desired
              && c'.run == (if marker.epoch > c.run.epoch then marker else c.run)
              && (Fits(c'.run) ==> Unpack(c'.acknowledged) == c'.run)
  {
    if c.lane != [] {
      RoundTripsExactly(Dispatched(c).run);
    }
    hide Unpack, Pack;
  }

  /** A marker goes out behind the others exactly while what is desired is not acknowledged and there is room. */
  lemma MarkersGoOutWhileDue(c: Control, room: bool)
    ensures var isDue := Unpack(c.desired) != Unpack(c.acknowledged);
            Marked(c, room) == c.(lane := c.lane + if isDue && room then [Unpack(c.desired)] else [])
  {
    assert c.lane + [] == c.lane;
    hide Unpack;
  }

  /** A marker pushed after the hot thread has popped an older one might as well have been pushed before: a step
      that decides and pushes at once stands for every interleaving of the two. */
  lemma LatePushIsEarlyPush(c: Control, marker: RunAssertion)
    requires c.lane != []
    ensures Dispatched(c.(lane := c.lane + [marker])) == Dispatched(c).(lane := Dispatched(c).lane + [marker])
  {
    assert (c.lane + [marker])[1..] == c.lane[1..] + [marker];
  }

  // ---------------------------------------------------------------- runs

  datatype Step =
    | Hear(assertion: RunAssertion, room: bool)
    | LoseController(room: bool)
    | Announce(room: bool)
    | Dispatch

  /** The loop with what was ever desired and what was ever applied, oldest first. */
  datatype Run = Run(control: Control, desired: seq<RunAssertion>, applied: seq<RunAssertion>)

  function Start(): Run {
    Run(Control(Pack(INITIAL), Pack(INITIAL), INITIAL, []), [INITIAL], [INITIAL])
  }

  /** The assertion a step makes, if any. */
  function Asks(r: Run, step: Step): Option<RunAssertion> {
    match step
    case Hear(assertion, _) => if assertion.epoch == 0 then None else Some(assertion)
    case LoseController(_) => Some(DeadMan(r.control))
    case _ => None
  }

  function Heard(r: Run, assertion: RunAssertion): Run {
    r.(control := Asserted(r.control, assertion),
       desired := if assertion.epoch > Unpack(r.control.desired).epoch then r.desired + [assertion] else r.desired)
  }

  function DispatchedRun(r: Run): Run {
    var control := Dispatched(r.control);
    Run(control, r.desired, if control.run == r.control.run then r.applied else r.applied + [control.run])
  }

  function Next(r: Run, step: Step): Run {
    match step
    case Hear(assertion, room) =>
      if assertion.epoch == 0 then r
      else
        var heard := Heard(r, assertion);
        heard.(control := Marked(heard.control, room))
    case LoseController(room) =>
      var heard := Heard(r, DeadMan(r.control));
      heard.(control := Marked(heard.control, room))
    case Announce(room) => r.(control := Marked(r.control, room))
    case Dispatch => DispatchedRun(r)
  }

  function After(r: Run, steps: seq<Step>): Run
    decreases |steps|
  {
    if steps == [] then r else Next(After(r, steps[..|steps| - 1]), steps[|steps| - 1])
  }

  /** No step of the run asserts an epoch past the limit. */
  ghost predicate EpochsFit(r: Run, steps: seq<Step>)
    decreases |steps|
  {
    steps != [] ==>
      && EpochsFit(r, steps[..|steps| - 1])
      && var asked := Asks(After(r, steps[..|steps| - 1]), steps[|steps| - 1]);
      (asked.Some? ==> Fits(asked.value))
  }

  // ---------------------------------------------------------------- what every run keeps

  ghost predicate Rising(assertions: seq<RunAssertion>) {
    forall i, j :: 0 <= i < j < |assertions| ==> assertions[i].epoch < assertions[j].epoch
  }

  function Last(assertions: seq<RunAssertion>): RunAssertion
    requires assertions != []
  {
    assertions[|assertions| - 1]
  }

  ghost predicate AllFit(assertions: seq<RunAssertion>) {
    forall a :: a in assertions ==> Fits(a)
  }

  ghost predicate AllIn(assertions: seq<RunAssertion>, desired: seq<RunAssertion>) {
    forall a :: a in assertions ==> a in desired
  }

  ghost predicate Kept(r: Run) {
    && r.desired != [] && Rising(r.desired) && AllFit(r.desired)
    && Unpack(r.control.desired) == Last(r.desired)
    && AllIn(r.control.lane, r.desired)
    && r.applied != [] && Rising(r.applied) && AllIn(r.applied, r.desired)
    && r.control.run == Last(r.applied) && Unpack(r.control.acknowledged) == r.control.run
  }

  lemma RisingSnoc(assertions: seq<RunAssertion>, next: RunAssertion)
    requires Rising(assertions) && (assertions != [] ==> Last(assertions).epoch < next.epoch)
    ensures Rising(assertions + [next])
  {
  }

  lemma HeardKeeps(r: Run, assertion: RunAssertion)
    requires Kept(r) && Fits(assertion)
    ensures Kept(Heard(r, assertion)) && r.desired <= Heard(r, assertion).desired
  {
    hide Pack, Unpack;
    RoundTripsExactly(assertion);
    if assertion.epoch > Unpack(r.control.desired).epoch {
      RisingSnoc(r.desired, assertion);
      hide Rising;
    }
  }

  lemma MarkKeeps(r: Run, room: bool)
    requires Kept(r)
    ensures Kept(r.(control := Marked(r.control, room)))
  {
  }

  lemma DispatchKeeps(r: Run)
    requires Kept(r)
    ensures Kept(DispatchedRun(r))
  {
    hide Pack, Unpack;
    if r.control.lane != [] {
      var marker := r.control.lane[0];
      var run := Applied(r.control.run, marker);
      assert run in r.desired;
      RoundTripsExactly(run);
      if run != r.control.run {
        RisingSnoc(r.applied, run);
      }
      hide Rising, AllFit;
    }
  }

  lemma StepKeeps(r: Run, step: Step)
    requires Kept(r)
    requires Asks(r, step).Some? ==> Fits(Asks(r, step).value)
    ensures Kept(Next(r, step)) && r.desired <= Next(r, step).desired
  {
    hide Kept, Pack, Unpack, Fits;
    match step
    case Hear(assertion, room) =>
      if assertion.epoch != 0 {
        HeardKeeps(r, assertion);
        MarkKeeps(Heard(r, assertion), room);
      }
    case LoseController(room) =>
      HeardKeeps(r, DeadMan(r.control));
      MarkKeeps(Heard(r, DeadMan(r.control)), room);
    case Announce(room) => MarkKeeps(r, room);
    case Dispatch => DispatchKeeps(r);
  }

  lemma {:induction false} RunKeeps(r: Run, steps: seq<Step>)
    requires Kept(r) && EpochsFit(r, steps)
    ensures Kept(After(r, steps)) && r.desired <= After(r, steps).desired
    decreases |steps|
  {
    if steps != [] {
      hide Kept, Next, Asks;
      RunKeeps(r, steps[..|steps| - 1]);
      StepKeeps(After(r, steps[..|steps| - 1]), steps[|steps| - 1]);
    }
  }

  lemma StartIsKept()
    ensures Kept(Start())
  {
  }

  lemma HighestEpochIsUnique(desired: seq<RunAssertion>, a: RunAssertion)
    requires desired != [] && Rising(desired) && a in desired
    ensures a.epoch <= Last(desired).epoch && (a.epoch == Last(desired).epoch ==> a == Last(desired))
  {
  }

  lemma {:induction false} RunsChain(r: Run, first: seq<Step>, rest: seq<Step>)
    ensures After(After(r, first), rest) == After(r, first + rest)
    ensures EpochsFit(r, first + rest) ==> EpochsFit(r, first) && EpochsFit(After(r, first), rest)
    decreases |rest|
  {
    hide Next, Asks;
    if rest == [] {
      assert first + rest == first;
    } else {
      assert (first + rest)[..|first + rest| - 1] == first + rest[..|rest| - 1];
      RunsChain(r, first, rest[..|rest| - 1]);
    }
  }

  // ---------------------------------------------------------------- what one step does to the desired state

  /** A claim becomes what is desired exactly when its epoch is above the one held; epoch zero claims nothing. */
  lemma HigherClaimsBecomeDesired(r: Run, assertion: RunAssertion, room: bool)
    requires Fits(assertion)
    ensures var held, r' := Unpack(r.control.desired), Next(r, Hear(assertion, room));
            && Unpack(r'.control.desired) == (if assertion.epoch > held.epoch then assertion else held)
            && (assertion.epoch == 0 ==> r' == r)
  {
    hide Unpack, Pack;
    RoundTripsExactly(assertion);
    WordsRoundTrip(r.control.desired);
  }

  /** A lost controller leaves the engine wanting to idle, one epoch above what was desired. */
  lemma LostControllersPark(r: Run, room: bool)
    requires Unpack(r.control.desired).epoch + 1 < IDLE_BIT
    ensures Unpack(Next(r, LoseController(room)).control.desired)
         == RunAssertion(Idle, Unpack(r.control.desired).epoch + 1)
  {
    hide Unpack, Pack;
    RoundTripsExactly(DeadMan(r.control));
  }

  // ---------------------------------------------------------------- the epochs a run reaches

  /** The highest epoch a run comes to want: the highest claim heard, and one more for each controller lost. */
  function HighestEpoch(steps: seq<Step>): nat {
    if steps == [] then 0
    else
      var before, last := HighestEpoch(steps[..|steps| - 1]), steps[|steps| - 1];
      match last
      case Hear(assertion, _) => Max(before, assertion.epoch)
      case LoseController(_) => before + 1
      case _ => before
  }

  /** What a caller can count: the claims heard stay at or below `k`, and this many controllers are lost. */
  function Losses(steps: seq<Step>): nat {
    if steps == [] then 0
    else Losses(steps[..|steps| - 1]) + if steps[|steps| - 1].LoseController? then 1 else 0
  }

  lemma {:induction false} ClaimsBoundTheEpochs(steps: seq<Step>, k: nat)
    requires forall step :: step in steps && step.Hear? ==> step.assertion.epoch <= k
    ensures HighestEpoch(steps) <= k + Losses(steps)
  {
    if steps != [] {
      ClaimsBoundTheEpochs(steps[..|steps| - 1], k);
    }
  }

  /** A run stays within what a cell has room for exactly when the highest epoch it reaches does. */
  lemma {:induction false} EpochsFitExactly(steps: seq<Step>)
    ensures EpochsFit(Start(), steps) <==> HighestEpoch(steps) < IDLE_BIT
    ensures EpochsFit(Start(), steps) ==> Unpack(After(Start(), steps).control.desired).epoch == HighestEpoch(steps)
    decreases |steps|
  {
    if steps != [] {
      var front, last := steps[..|steps| - 1], steps[|steps| - 1];
      EpochsFitExactly(front);
      EpochStep(After(Start(), front), last);
      hide Next, Unpack, Start;
    }
  }

  lemma EpochStep(r: Run, step: Step)
    ensures var asked := Asks(r, step);
            asked.Some? && Fits(asked.value) ==>
              Unpack(Next(r, step).control.desired).epoch == Max(Unpack(r.control.desired).epoch, asked.value.epoch)
    ensures Asks(r, step).None? ==> Next(r, step).control.desired == r.control.desired
  {
    hide Unpack, Pack;
    if Asks(r, step).Some? {
      RoundTripsExactly(Asks(r, step).value);
    }
  }

  /** A claim that wins is what the desired cell then reads exactly when its epoch fits. */
  lemma ClaimReadsBackExactly(r: Run, assertion: RunAssertion)
    requires assertion.epoch > Unpack(r.control.desired).epoch
    ensures Unpack(Heard(r, assertion).control.desired) == assertion <==> Fits(assertion)
  {
    hide Unpack, Pack;
    RoundTripsExactly(assertion);
  }

  /** The desired cell reads what was last accepted. */
  ghost predicate ReadsBack(r: Run) {
    r.desired != [] && Unpack(r.control.desired) == Last(r.desired)
  }

  ghost predicate AlwaysReadsBack(steps: seq<Step>) {
    forall n :: 0 <= n <= |steps| ==> ReadsBack(After(Start(), steps[..n]))
  }

  lemma {:induction false} PrefixesFit(r: Run, steps: seq<Step>, n: nat)
    requires EpochsFit(r, steps) && n <= |steps|
    ensures EpochsFit(r, steps[..n])
    decreases |steps|
  {
    if n < |steps| {
      assert steps[..|steps| - 1][..n] == steps[..n];
      PrefixesFit(r, steps[..|steps| - 1], n);
    } else {
      assert steps[..n] == steps;
    }
  }

  lemma ReadingBackFits(r: Run, step: Step)
    requires Asks(r, step).Some? && ReadsBack(Next(r, step))
    ensures Fits(Asks(r, step).value)
  {
    hide Unpack, Pack;
    var asked := Asks(r, step).value;
    if !Fits(asked) {
      WordsRoundTrip(r.control.desired);
      RoundTripsExactly(asked);
    }
  }

  lemma {:induction false} AlwaysReadingBackFits(steps: seq<Step>)
    requires AlwaysReadsBack(steps)
    ensures EpochsFit(Start(), steps)
    decreases |steps|
  {
    hide Next, Asks, ReadsBack, Start;
    if steps != [] {
      var front, last := steps[..|steps| - 1], steps[|steps| - 1];
      assert forall n :: 0 <= n <= |front| ==> front[..n] == steps[..n];
      AlwaysReadingBackFits(front);
      assert steps[..|steps|] == steps;
      if Asks(After(Start(), front), last).Some? {
        ReadingBackFits(After(Start(), front), last);
      }
    }
  }

  /** So the desired cell reads what was last accepted, at every moment of a run, exactly when the highest epoch
      the run reaches is below 2^63. */
  lemma ReadsBackExactlyBelowTheLimit(steps: seq<Step>)
    ensures AlwaysReadsBack(steps) <==> HighestEpoch(steps) < IDLE_BIT
  {
    EpochsFitExactly(steps);
    if HighestEpoch(steps) < IDLE_BIT {
      StartIsKept();
      hide Next, Unpack, HighestEpoch, Start;
      forall n | 0 <= n <= |steps|
        ensures ReadsBack(After(Start(), steps[..n]))
      {
        PrefixesFit(Start(), steps, n);
        RunKeeps(Start(), steps[..n]);
      }
    } else if AlwaysReadsBack(steps) {
      AlwaysReadingBackFits(steps);
    }
  }

  // ---------------------------------------------------------------- the theorems

  /** Desired epochs strictly increase, and the one in force is the highest. */
  lemma DesiredEpochsRise(steps: seq<Step>, i: nat, j: nat)
    requires HighestEpoch(steps) < IDLE_BIT && i < j < |After(Start(), steps).desired|
    ensures var r := After(Start(), steps);
            && r.desired[i].epoch < r.desired[j].epoch
            && r.desired[j].epoch <= Unpack(r.control.desired).epoch
  {
    StartIsKept();
    EpochsFitExactly(steps);
    hide Next, Unpack;
    RunKeeps(Start(), steps);
  }

  /** What the hot thread acknowledges it is running under, and that was once desired; its epoch never passes
      the desired one. It changes state only on a higher epoch, so a repeated marker never re-runs a
      transition. */
  lemma AcknowledgedWasDesired(steps: seq<Step>)
    requires HighestEpoch(steps) < IDLE_BIT
    ensures var r := After(Start(), steps);
            && Unpack(r.control.acknowledged) == r.control.run
            && r.control.run in r.desired
            && r.control.run.epoch <= Unpack(r.control.desired).epoch
            && Rising(r.applied)
  {
    StartIsKept();
    EpochsFitExactly(steps);
    hide Next, Unpack;
    RunKeeps(Start(), steps);
    var r := After(Start(), steps);
    assert Last(r.applied) in r.applied;
    HighestEpochIsUnique(r.desired, r.control.run);
  }

  /** Either both cells agree, or a marker that will make them agree is on the lane. */
  ghost predicate Settling(c: Control) {
    Pending(c.desired, c.acknowledged).None? || Unpack(c.desired) in c.lane
  }

  /** A marker pushed onto a lane with room is all it takes to be settling. */
  lemma MarkSettles(c: Control)
    ensures Settling(Marked(c, true))
  {
  }

  lemma DispatchSettles(r: Run)
    requires Kept(r) && Settling(r.control)
    ensures Settling(DispatchedRun(r).control)
  {
    hide Pack, Unpack;
    if r.control.lane != [] {
      var marker, wanted := r.control.lane[0], Last(r.desired);
      var run := Applied(r.control.run, marker);
      RoundTripsExactly(run);
      HighestEpochIsUnique(r.desired, r.control.run);
      HighestEpochIsUnique(r.desired, marker);
      assert marker != wanted && wanted in r.control.lane ==> wanted in r.control.lane[1..];
      hide Rising;
    }
  }

  lemma StepSettles(r: Run, step: Step)
    requires Kept(r) && Settling(r.control) && Unpack(Next(r, step).control.desired) == Unpack(r.control.desired)
    ensures Settling(Next(r, step).control)
  {
    hide Pack, Unpack;
    match step
    case Hear(assertion, room) => hide Kept;
    case LoseController(room) => hide Kept;
    case Announce(room) => hide Kept;
    case Dispatch => DispatchSettles(r);
  }

  lemma SameDesire(earlier: Run, between: Run, later: Run)
    requires Kept(earlier) && Kept(between) && Kept(later)
    requires earlier.desired <= between.desired <= later.desired && Last(earlier.desired) == Last(later.desired)
    ensures Last(between.desired) == Last(later.desired)
  {
  }

  lemma {:induction false} RunSettles(r: Run, steps: seq<Step>)
    requires Kept(r) && EpochsFit(r, steps) && Settling(r.control)
    requires Unpack(After(r, steps).control.desired) == Unpack(r.control.desired)
    ensures Settling(After(r, steps).control)
    decreases |steps|
  {
    if steps != [] {
      hide Next, Pack, Unpack, Settling, Rising, AllFit, AllIn, Asks;
      var init, last := steps[..|steps| - 1], steps[|steps| - 1];
      RunKeeps(r, init);
      RunKeeps(r, steps);
      StepKeeps(After(r, init), last);
      SameDesire(r, After(r, init), After(r, steps));
      RunSettles(r, init);
      StepSettles(After(r, init), last);
    }
  }

  /** Control settles: once the desired state stops changing, any later attempt whose marker finds room leaves
      nothing pending by the time the lane is drained, whatever else was dropped before or after it. */
  lemma ControlConverges(before: seq<Step>, attempt: Step, rest: seq<Step>)
    requires !attempt.Dispatch? && attempt.room && (attempt.Hear? ==> attempt.assertion.epoch > 0)
    requires HighestEpoch(before + [attempt] + rest) < IDLE_BIT
    requires var attempted, end := After(Start(), before + [attempt]), After(Start(), before + [attempt] + rest);
             Unpack(end.control.desired) == Unpack(attempted.control.desired) && end.control.lane == []
    ensures var end := After(Start(), before + [attempt] + rest);
            && Pending(end.control.desired, end.control.acknowledged).None?
            && end.control.run == Unpack(end.control.desired)
  {
    hide Pack, Unpack, Rising, AllFit, AllIn, HighestEpoch;
    StartIsKept();
    EpochsFitExactly(before + [attempt] + rest);
    RunsChain(Start(), before + [attempt], rest);
    assert (before + [attempt])[..|before|] == before;
    RunKeeps(Start(), before + [attempt]);
    AttemptSettles(After(Start(), before), attempt);
    hide Next, Start;
    var attempted := After(Start(), before + [attempt]);
    RunSettles(attempted, rest);
    RunKeeps(attempted, rest);
  }

  lemma AttemptSettles(r: Run, attempt: Step)
    requires !attempt.Dispatch? && attempt.room && (attempt.Hear? ==> attempt.assertion.epoch > 0)
    ensures Settling(Next(r, attempt).control)
  {
    hide Pack, Unpack, Pending;
    MarkSettles((if Asks(r, attempt).Some? then Heard(r, Asks(r, attempt).value) else r).control);
    hide Settling;
  }

  /** Past the limit none of this holds: one assertion to run, at the first epoch too wide, leaves the engine
      wanting to idle at epoch zero, which nobody asked for, and that state is what the hot thread receives. */
  lemma EpochsPastTheLimitAreLost()
    ensures var r := After(Start(), [Hear(RunAssertion(Running, IDLE_BIT), true)]);
            && Unpack(r.control.desired) == RunAssertion(Idle, 0)
            && r.desired == [INITIAL, RunAssertion(Running, IDLE_BIT)]
            && r.control.lane == [RunAssertion(Idle, 0)]
  {
  }

  /** Nor need any claim heard be too wide: the dead-man's own step past the last epoch that fits does it. */
  lemma LosingTheControllerCanPassTheLimit()
    ensures var steps := [Hear(RunAssertion(Running, IDLE_BIT - 1), true), LoseController(true)];
            Unpack(After(Start(), steps).control.desired) == RunAssertion(Idle, 0)
  {
    var heard, lost := Hear(RunAssertion(Running, IDLE_BIT - 1), true), LoseController(true);
    assert [heard, lost][..1] == [heard] && [heard][..0] == [];
    assert After(Start(), [heard]) == Next(Start(), heard);
    assert After(Start(), [heard, lost]) == Next(After(Start(), [heard]), lost);
  }

  // ---------------------------------------------------------------- the workstation's controller

  datatype ControlVerdict = NoOpinion | Unanswered | Confirmed | Lost(holderEpoch: U64)

  /** A workstation's own claims, as a value: where its epochs start, how often the toggle was pressed, and what it
      stands on, if anything. */
  datatype Claims = Claims(bootEpoch: U64, assertions: nat, asserted: Option<RunState>)

  function Claim(c: Claims): RunAssertion {
    match c.asserted
    case None => INITIAL
    case Some(state) => RunAssertion(state, Min(c.bootEpoch + c.assertions, U64_MAX))
  }

  function Pressed(c: Claims, state: RunState): Claims {
    c.(assertions := c.assertions + 1, asserted := Some(state))
  }

  function Released(c: Claims): Claims {
    c.(asserted := None)
  }

  /** A workstation's own claims: every press of the toggle outranks all before it. */
  class Controller {
    const bootEpoch: U64
    var assertions: nat
    var assertedState: Option<RunState>

    constructor (bootTs: I64)
      ensures bootEpoch == Max(bootTs, 0) && assertions == 0 && assertedState == None
    {
      bootEpoch, assertions, assertedState := Max(bootTs, 0), 0, None;
    }

    function View(): Claims
      reads this
    {
      Claims(bootEpoch, assertions, assertedState)
    }

    function Assertion(): (assertion: RunAssertion)
      reads this
      ensures assertion == Claim(View())
    {
      match assertedState
      case None => INITIAL
      case Some(state) => RunAssertion(state, Min(bootEpoch + assertions, U64_MAX))
    }

    /** Below the saturation point a new claim has a higher epoch than any before it. */
    method Assert(state: RunState)
      modifies this
      ensures View() == Pressed(old(View()), state) && Assertion().state == state
      ensures bootEpoch + old(assertions) < U64_MAX ==> Assertion().epoch > old(Assertion()).epoch
      ensures Assertion().epoch == Min(bootEpoch + old(assertions) + 1, U64_MAX)
    {
      assertions := assertions + 1;
      assertedState := Some(state);
    }

    /** A released controller claims nothing, at the epoch every peer ignores. */
    method Release()
      modifies this
      ensures View() == Released(old(View())) && Assertion() == INITIAL
    {
      assertedState := None;
    }

    /** Confirmed exactly when the engine reports running under this claim; lost exactly when it reports a
        higher one. */
    method Verdict(reported: Option<RunAssertion>) returns (verdict: ControlVerdict)
      ensures verdict.NoOpinion? <==> assertedState.None?
      ensures assertedState.Some? ==> (verdict.Confirmed? <==> reported == Some(Assertion()))
      ensures verdict.Lost? <==> assertedState.Some? && reported.Some? && reported.value.epoch > Assertion().epoch
      ensures verdict.Lost? ==> verdict.holderEpoch == reported.value.epoch
    {
      if assertedState.None? {
        return NoOpinion;
      }
      if reported.None? {
        return Unanswered;
      }
      var mine := Assertion().epoch;
      if reported.value.epoch > mine {
        return Lost(reported.value.epoch);
      }
      var isApplied := reported.value.epoch == mine && assertedState == Some(reported.value.state);
      verdict := if isApplied then Confirmed else Unanswered;
    }
  }
}
