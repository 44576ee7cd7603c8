/** What a workstation sends (src/workstation/link_session.rs, src/workstation/link_model.rs): numbered subscriptions
    that carry its claim on the engine's run state, to one engine at a time. */
module Outbox {
  import opened Common
  import opened RunControl

  const SUBSCRIBE_INTERVAL: int := 2_000_000

  datatype Subscription = Subscription(number: nat, claim: RunAssertion)

  /** The claims, when the last subscription went out unless one is wanted at once, and how many ever did. */
  datatype OutboxView = OutboxView(claims: Claims, lastSent: Option<int>, count: nat)

  function NewOutbox(bootEpoch: U64): OutboxView {
    OutboxView(Claims(bootEpoch, 0, None), None, 0)
  }

  predicate IsDue(o: OutboxView, now: int) {
    o.lastSent.None? || now - o.lastSent.value >= SUBSCRIBE_INTERVAL
  }

  function Asked(o: OutboxView, now: int): (OutboxView, Option<Subscription>) {
    if IsDue(o, now) then
      (o.(lastSent := Some(now), count := o.count + 1), Some(Subscription(o.count + 1, Claim(o.claims))))
    else (o, None)
  }

  function PressedToggle(o: OutboxView, state: RunState): OutboxView {
    o.(claims := Pressed(o.claims, state), lastSent := None)
  }

  /** The count goes on: an engine come back to remembers the highest it heard. */
  function MovedOn(o: OutboxView): OutboxView {
    o.(claims := Released(o.claims), lastSent := None)
  }

  // ---------------------------------------------------------------- runs

  datatype Act = Press(state: RunState) | Move | Ask(now: int)

  /** A subscription that went out: to which engine, counted by moves, and when. */
  datatype Sent = Sent(attachment: nat, at: int, subscription: Subscription)

  datatype Desk = Desk(outbox: OutboxView, attachment: nat, sent: seq<Sent>)

  function Next(d: Desk, act: Act): Desk {
    match act
    case Press(state) => d.(outbox := PressedToggle(d.outbox, state))
    case Move => d.(outbox := MovedOn(d.outbox), attachment := d.attachment + 1)
    case Ask(now) =>
      var (outbox, subscription) := Asked(d.outbox, now);
      d.(outbox := outbox,
         sent := d.sent + if subscription.None? then [] else [Sent(d.attachment, now, subscription.value)])
  }

  function Run(bootEpoch: U64, acts: seq<Act>): Desk
    decreases |acts|
  {
    if acts == [] then Desk(NewOutbox(bootEpoch), 0, [])
    else Next(Run(bootEpoch, acts[..|acts| - 1]), acts[|acts| - 1])
  }

  function Presses(acts: seq<Act>): nat {
    if acts == [] then 0 else Presses(acts[..|acts| - 1]) + if acts[|acts| - 1].Press? then 1 else 0
  }

  function Moves(acts: seq<Act>): nat {
    if acts == [] then 0 else Moves(acts[..|acts| - 1]) + if acts[|acts| - 1].Move? then 1 else 0
  }

  // ---------------------------------------------------------------- what a run keeps

  /** The claim of some press: made while attached to this engine, in this state, and outranking every press
      before it. */
  ghost predicate MadeBy(bootEpoch: U64, acts: seq<Act>, attachment: nat, claim: RunAssertion, k: nat) {
    && k < |acts| && acts[k].Press? && Moves(acts[..k]) == attachment
    && claim == RunAssertion(acts[k].state, Min(bootEpoch + Presses(acts[..k]) + 1, U64_MAX))
  }

  ghost predicate Made(bootEpoch: U64, acts: seq<Act>, attachment: nat, claim: RunAssertion) {
    exists k: nat :: MadeBy(bootEpoch, acts, attachment, claim, k)
  }

  ghost predicate Honest(bootEpoch: U64, acts: seq<Act>, sent: Sent) {
    sent.subscription.claim == INITIAL || Made(bootEpoch, acts, sent.attachment, sent.subscription.claim)
  }

  ghost predicate DeskKept(bootEpoch: U64, acts: seq<Act>, d: Desk) {
    && d.outbox.claims.bootEpoch == bootEpoch && d.outbox.claims.assertions == Presses(acts)
    && d.attachment == Moves(acts) && d.outbox.count == |d.sent|
    && (d.outbox.claims.asserted.Some? ==> Made(bootEpoch, acts, d.attachment, Claim(d.outbox.claims)))
    && (forall i :: 0 <= i < |d.sent| ==> Honest(bootEpoch, acts, d.sent[i]))
    && (forall i :: 0 <= i < |d.sent| ==> d.sent[i].subscription.number == i + 1)
    && EpochsRise(d)
  }

  /** Claims sent never step back, and none is ahead of the toggle. */
  ghost predicate EpochsRise(d: Desk) {
    var claims := d.outbox.claims;
    && (forall i :: 0 <= i < |d.sent| ==>
          d.sent[i].subscription.claim.epoch <= Min(claims.bootEpoch + claims.assertions, U64_MAX))
    && (forall i, j :: 0 <= i < j < |d.sent| && d.sent[j].subscription.claim != INITIAL ==>
          d.sent[i].subscription.claim.epoch <= d.sent[j].subscription.claim.epoch)
  }

  lemma StaysMade(bootEpoch: U64, acts: seq<Act>, act: Act, attachment: nat, claim: RunAssertion)
    requires Made(bootEpoch, acts, attachment, claim)
    ensures Made(bootEpoch, acts + [act], attachment, claim)
  {
    var k: nat :| MadeBy(bootEpoch, acts, attachment, claim, k);
    assert (acts + [act])[..k] == acts[..k];
    assert MadeBy(bootEpoch, acts + [act], attachment, claim, k);
  }

  lemma PressIsMade(bootEpoch: U64, acts: seq<Act>, state: RunState)
    ensures Made(bootEpoch, acts + [Press(state)], Moves(acts),
                 RunAssertion(state, Min(bootEpoch + Presses(acts) + 1, U64_MAX)))
  {
    var claim := RunAssertion(state, Min(bootEpoch + Presses(acts) + 1, U64_MAX));
    assert (acts + [Press(state)])[..|acts|] == acts;
    assert MadeBy(bootEpoch, acts + [Press(state)], Moves(acts), claim, |acts|);
  }

  lemma ActKeepsEpochs(d: Desk, act: Act)
    requires EpochsRise(d)
    ensures EpochsRise(Next(d, act))
  {
  }

  lemma ActKeeps(bootEpoch: U64, acts: seq<Act>, d: Desk, act: Act)
    requires DeskKept(bootEpoch, acts, d)
    ensures DeskKept(bootEpoch, acts + [act], Next(d, act))
  {
    hide Made, EpochsRise;
    assert (acts + [act])[..|acts|] == acts;
    ActKeepsEpochs(d, act);
    forall i | 0 <= i < |d.sent|
      ensures Honest(bootEpoch, acts + [act], d.sent[i])
    {
      assert Honest(bootEpoch, acts, d.sent[i]);
      if d.sent[i].subscription.claim != INITIAL {
        StaysMade(bootEpoch, acts, act, d.sent[i].attachment, d.sent[i].subscription.claim);
      }
    }
    if d.outbox.claims.asserted.Some? {
      StaysMade(bootEpoch, acts, act, d.attachment, Claim(d.outbox.claims));
    }
    if act.Press? {
      PressIsMade(bootEpoch, acts, act.state);
    }
  }

  lemma NewDeskIsKept(bootEpoch: U64)
    ensures DeskKept(bootEpoch, [], Desk(NewOutbox(bootEpoch), 0, []))
  {
  }

  lemma {:induction false} EveryRunIsKept(bootEpoch: U64, acts: seq<Act>)
    ensures DeskKept(bootEpoch, acts, Run(bootEpoch, acts))
    decreases |acts|
  {
    hide DeskKept;
    if acts == [] {
      NewDeskIsKept(bootEpoch);
    } else {
      var front, last := acts[..|acts| - 1], acts[|acts| - 1];
      EveryRunIsKept(bootEpoch, front);
      ActKeeps(bootEpoch, front, Run(bootEpoch, front), last);
      assert front + [last] == acts;
    }
  }

  // ---------------------------------------------------------------- the theorems

  /** Subscriptions are numbered one after another, engine after engine, and the claims they carry never step
      back. */
  lemma NumbersAndEpochsRise(bootEpoch: U64, acts: seq<Act>, i: nat, j: nat)
    requires i < j < |Run(bootEpoch, acts).sent|
    ensures var a, b := Run(bootEpoch, acts).sent[i].subscription, Run(bootEpoch, acts).sent[j].subscription;
            && a.number == i + 1 && b.number == j + 1
            && (b.claim != INITIAL ==> a.claim.epoch <= b.claim.epoch)
  {
    EveryRunIsKept(bootEpoch, acts);
    hide Run, Made;
  }

  lemma {:induction false} PressesRise(acts: seq<Act>, j: nat, k: nat)
    requires j < k <= |acts| && acts[j].Press?
    ensures Presses(acts[..j]) < Presses(acts[..k])
  {
    assert acts[..k][..k - 1] == acts[..k - 1];
    if j < k - 1 {
      PressesRise(acts, j, k - 1);
    }
  }

  lemma PressesGrow(acts: seq<Act>, k: nat)
    requires k < |acts| && acts[k].Press?
    ensures Presses(acts[..k]) + 1 <= Presses(acts)
  {
    PressesRise(acts, k, |acts|);
    assert acts[..|acts|] == acts;
  }

  /** Until the epochs saturate, an epoch names one press: claims with one epoch are one claim, on one engine. */
  lemma EpochNamesOnePress(bootEpoch: U64, acts: seq<Act>, here: nat, a: RunAssertion, there: nat, b: RunAssertion)
    requires bootEpoch + Presses(acts) <= U64_MAX && a.epoch == b.epoch
    requires Made(bootEpoch, acts, here, a) && Made(bootEpoch, acts, there, b)
    ensures a == b && here == there
  {
    var j: nat :| MadeBy(bootEpoch, acts, here, a, j);
    var k: nat :| MadeBy(bootEpoch, acts, there, b, k);
    PressesGrow(acts, j);
    PressesGrow(acts, k);
    hide Presses, Moves;
    if j < k {
      PressesRise(acts, j, k);
    } else if k < j {
      PressesRise(acts, k, j);
    }
  }

  /** So a claim made on one engine is never sent to another: two subscriptions with one epoch carry one claim, to one
      engine. */
  lemma ClaimsStayWithTheirEngine(bootEpoch: U64, acts: seq<Act>, i: nat, j: nat)
    requires bootEpoch + Presses(acts) <= U64_MAX
    requires i < |Run(bootEpoch, acts).sent| && j < |Run(bootEpoch, acts).sent|
    requires var sent := Run(bootEpoch, acts).sent;
             var a, b := sent[i].subscription.claim, sent[j].subscription.claim;
             a != INITIAL && b != INITIAL && a.epoch == b.epoch
    ensures Run(bootEpoch, acts).sent[i].subscription.claim == Run(bootEpoch, acts).sent[j].subscription.claim
    ensures Run(bootEpoch, acts).sent[i].attachment == Run(bootEpoch, acts).sent[j].attachment
  {
    hide Run, Made, Presses;
    EveryRunIsKept(bootEpoch, acts);
    var a, b := Run(bootEpoch, acts).sent[i], Run(bootEpoch, acts).sent[j];
    assert Honest(bootEpoch, acts, a) && Honest(bootEpoch, acts, b);
    EpochNamesOnePress(bootEpoch, acts, a.attachment, a.subscription.claim, b.attachment, b.subscription.claim);
  }

  /** Claims the engine's desired cell hears, one after another. */
  function HeardAll(cell: U64, heard: seq<RunAssertion>): U64 {
    if heard == [] then cell else Accept(HeardAll(cell, heard[..|heard| - 1]), heard[|heard| - 1])
  }

  lemma {:induction false} HighestHeardStands(cell: U64, heard: seq<RunAssertion>)
    requires forall claim :: claim in heard ==> Fits(claim)
    ensures var standing := Unpack(HeardAll(cell, heard));
            && (standing == Unpack(cell) || standing in heard)
            && Unpack(cell).epoch <= standing.epoch
            && (forall claim :: claim in heard ==> claim.epoch <= standing.epoch)
  {
    hide Unpack, Pack;
    if heard != [] {
      var front, last := heard[..|heard| - 1], heard[|heard| - 1];
      assert heard == front + [last] && last in heard;
      HighestHeardStands(cell, front);
      RoundTripsExactly(last);
    }
  }

  /** An engine that hears any of a workstation's claims, in any order and however often, ends on the one of the
      newest press it heard of, whatever older claim it held before. */
  lemma NewestPressHeardStands(bootEpoch: U64, acts: seq<Act>, cell: U64, heard: seq<RunAssertion>)
    requires bootEpoch + Presses(acts) < IDLE_BIT && Unpack(cell).epoch <= bootEpoch && heard != []
    requires forall claim :: claim in heard ==>
               claim != INITIAL && exists i :: 0 <= i < |Run(bootEpoch, acts).sent|
                                               && Run(bootEpoch, acts).sent[i].subscription.claim == claim
    ensures var standing := Unpack(HeardAll(cell, heard));
            && standing in heard
            && forall claim :: claim in heard ==> claim == standing || claim.epoch < standing.epoch
  {
    hide Run, Made, Presses, HeardAll, Unpack;
    EveryRunIsKept(bootEpoch, acts);
    forall claim | claim in heard
      ensures (exists here :: Made(bootEpoch, acts, here, claim)) && bootEpoch < claim.epoch && Fits(claim)
    {
      var i :| 0 <= i < |Run(bootEpoch, acts).sent| && Run(bootEpoch, acts).sent[i].subscription.claim == claim;
      assert Honest(bootEpoch, acts, Run(bootEpoch, acts).sent[i]);
      MadeIsAfterBoot(bootEpoch, acts, Run(bootEpoch, acts).sent[i].attachment, claim);
    }
    HighestHeardStands(cell, heard);
    var standing := Unpack(HeardAll(cell, heard));
    assert heard[0] in heard;
    forall claim | claim in heard && claim.epoch == standing.epoch
      ensures claim == standing
    {
      var here :| Made(bootEpoch, acts, here, claim);
      var there :| Made(bootEpoch, acts, there, standing);
      EpochNamesOnePress(bootEpoch, acts, here, claim, there, standing);
    }
  }

  lemma MadeIsAfterBoot(bootEpoch: U64, acts: seq<Act>, attachment: nat, claim: RunAssertion)
    requires Made(bootEpoch, acts, attachment, claim) && bootEpoch + Presses(acts) < IDLE_BIT
    ensures bootEpoch < claim.epoch && Fits(claim)
  {
    var k: nat :| MadeBy(bootEpoch, acts, attachment, claim, k);
    PressesGrow(acts, k);
  }

  /** A press or a move is told at the next chance, whenever the last subscription went out: the new claim after a
      press, no claim and to the next engine after a move. */
  lemma ToldAtOnce(bootEpoch: U64, acts: seq<Act>, state: RunState, now: int)
    ensures Next(Next(Run(bootEpoch, acts), Press(state)), Ask(now)).sent
         == Run(bootEpoch, acts).sent
            + [Sent(Moves(acts), now, Subscription(|Run(bootEpoch, acts).sent| + 1,
                                                   RunAssertion(state, Min(bootEpoch + Presses(acts) + 1, U64_MAX))))]
    ensures Next(Next(Run(bootEpoch, acts), Move), Ask(now)).sent
         == Run(bootEpoch, acts).sent
            + [Sent(Moves(acts) + 1, now, Subscription(|Run(bootEpoch, acts).sent| + 1, INITIAL))]
  {
    hide Run, Made, Presses, Moves;
    EveryRunIsKept(bootEpoch, acts);
  }

  /** Otherwise nothing goes out for two seconds after the last, however often it is asked for. */
  lemma {:induction false} QuietUntilDue(bootEpoch: U64, acts: seq<Act>, at: int, asks: seq<Act>)
    requires Run(bootEpoch, acts).outbox.lastSent == Some(at)
    requires forall act :: act in asks ==> act.Ask? && act.now - at < SUBSCRIBE_INTERVAL
    ensures Run(bootEpoch, acts + asks) == Run(bootEpoch, acts)
    decreases |asks|
  {
    if asks == [] {
      assert acts + asks == acts;
    } else {
      var front, last := asks[..|asks| - 1], asks[|asks| - 1];
      QuietUntilDue(bootEpoch, acts, at, front);
      assert last in asks && (acts + asks)[..|acts + asks| - 1] == acts + front;
    }
  }

  /** What was said last stands until a press or a move. */
  ghost predicate Stands(d: Desk) {
    d.outbox.lastSent.Some? ==>
      && d.sent != []
      && var last := d.sent[|d.sent| - 1];
         && last.at == d.outbox.lastSent.value && last.attachment == d.attachment
         && last.subscription.claim == Claim(d.outbox.claims)
  }

  lemma {:induction false} LastSaidStands(bootEpoch: U64, acts: seq<Act>)
    ensures Stands(Run(bootEpoch, acts))
    decreases |acts|
  {
    if acts != [] {
      LastSaidStands(bootEpoch, acts[..|acts| - 1]);
    }
  }

  /** Two seconds after the last subscription it is said again, and the very first is sent as soon as it is asked
      for. */
  lemma SaidAgainWhenDue(bootEpoch: U64, acts: seq<Act>, now: int)
    requires var sent := Run(bootEpoch, acts).sent; sent == [] || now - sent[|sent| - 1].at >= SUBSCRIBE_INTERVAL
    ensures var d := Run(bootEpoch, acts);
            var after := Next(d, Ask(now)).sent;
            && after == d.sent + [Sent(Moves(acts), now, Subscription(|d.sent| + 1, Claim(d.outbox.claims)))]
            && Next(d, Ask(now)).outbox.lastSent == Some(now)
            && (d.outbox.lastSent.Some? ==>
                  && d.sent != [] && after[|d.sent|].attachment == d.sent[|d.sent| - 1].attachment
                  && after[|d.sent|].subscription.claim == d.sent[|d.sent| - 1].subscription.claim)
  {
    hide Run, Made, Moves;
    EveryRunIsKept(bootEpoch, acts);
    LastSaidStands(bootEpoch, acts);
  }

  /** An engine just attached to hears no claim until the toggle is pressed again. */
  lemma {:induction false} NothingIsClaimedAfterAMove(bootEpoch: U64, acts: seq<Act>, asks: seq<Act>)
    requires forall act :: act in asks ==> act.Ask?
    ensures var claims := Run(bootEpoch, acts + [Move] + asks).outbox.claims;
            claims.asserted.None? && Claim(claims) == INITIAL
    decreases |asks|
  {
    var all := acts + [Move] + asks;
    if asks == [] {
      assert all[..|all| - 1] == acts && all[|all| - 1] == Move;
    } else {
      assert asks[|asks| - 1] in asks;
      assert all[..|all| - 1] == acts + [Move] + asks[..|asks| - 1] && all[|all| - 1] == asks[|asks| - 1];
      NothingIsClaimedAfterAMove(bootEpoch, acts, asks[..|asks| - 1]);
    }
  }
}
