/** The chart axis (src/workstation/format.rs): ticks at the finest step of the 1, 2, 5 ladder that does not
    crowd the plot. */
module Axis {
  import opened Common
  import opened Arith
  import opened Decimal

  const MAX_STEP_DECADE: nat := 18
  const MIN_TICK_CEILING: nat := 5

  /** Ticks still to draw: `remaining` of them, from `cursor` on. */
  datatype AxisTicks = AxisTicks(cursor: int, remaining: nat, step: int)

  const NO_TICKS := AxisTicks(0, 0, 1)

  function FirstTick(low: int, step: int): int
    requires step > 0
  {
    if GridFloor(low, step) < low then GridFloor(low, step) + step else GridFloor(low, step)
  }

  function Count(first: int, last: int, step: int): (count: nat)
    requires step > 0
    ensures count > 0 ==> first <= last
  {
    if last < first then 0
    else
      DivMono(0, last - first, step);
      (last - first) / step + 1
  }

  /** The multiples of `step` from `low` to `high`, unless an end of the range has none in 64 bits. */
  function TicksWithin(low: int, high: int, step: int): Option<AxisTicks>
    requires step > 0
  {
    var first, last := FirstTick(low, step), GridFloor(high, step);
    if !FitsI64(GridFloor(low, step)) || !FitsI64(first) || !FitsI64(last)
       || Count(first, last, step) > U64_MAX then None
    else Some(AxisTicks(first, Count(first, last, step), step))
  }

  /** The ladder: 1, 2, 5, 10, 20, 50, and so on through the eighteenth decade. */
  function NiceStep(i: nat): (step: int)
    ensures step > 0
  {
    Pow10(i / 3) * (match i % 3 case 0 => 1 case 1 => 2 case _ => 5)
  }

  const NICE_STEPS: nat := 3 * (MAX_STEP_DECADE + 1)

  /** The first rung from the `i`th whose ticks are few enough. */
  function FindTicks(low: int, high: int, ceiling: nat, i: nat): AxisTicks
    decreases NICE_STEPS - i
  {
    if i >= NICE_STEPS then NO_TICKS
    else
      var ticks := TicksWithin(low, high, NiceStep(i));
      if ticks.Some? && ticks.value.remaining <= ceiling then ticks.value else FindTicks(low, high, ceiling, i + 1)
  }

  function TicksFor(low: int, high: int, maxTicks: nat): AxisTicks {
    if maxTicks == 0 then NO_TICKS else FindTicks(low, high, Max(maxTicks, MIN_TICK_CEILING), 0)
  }

  method ChooseTicks(low: I64, high: I64, maxTicks: nat) returns (ticks: AxisTicks)
    ensures ticks == TicksFor(low, high, maxTicks)
  {
    if maxTicks == 0 {
      return NO_TICKS;
    }
    hide TicksWithin, NiceStep;
    var ceiling := Max(maxTicks, MIN_TICK_CEILING);
    var i := 0;
    while i < NICE_STEPS
      invariant 0 <= i <= NICE_STEPS
      invariant FindTicks(low, high, ceiling, i) == FindTicks(low, high, ceiling, 0)
    {
      var found := TicksWithin(low, high, NiceStep(i));
      if found.Some? && found.value.remaining <= ceiling {
        return found.value;
      }
      i := i + 1;
    }
    ticks := NO_TICKS;
  }

  // ---------------------------------------------------------------- drawing them

  function Advanced(ticks: AxisTicks): AxisTicks
    requires ticks.remaining > 0
  {
    ticks.(cursor := SaturatingI64(ticks.cursor + ticks.step), remaining := ticks.remaining - 1)
  }

  function Yielded(ticks: AxisTicks): (values: seq<int>)
    ensures |values| == ticks.remaining
    decreases ticks.remaining
  {
    if ticks.remaining == 0 then [] else [ticks.cursor] + Yielded(Advanced(ticks))
  }

  /** The painter's iterator. */
  class TickCursor {
    var ticks: AxisTicks

    constructor (ticks: AxisTicks)
      ensures this.ticks == ticks
    {
      this.ticks := ticks;
    }

    method Next() returns (value: Option<int>)
      modifies this
      ensures value.None? <==> Yielded(old(ticks)) == []
      ensures value.None? ==> ticks == old(ticks)
      ensures value.Some? ==> Yielded(old(ticks)) == [value.value] + Yielded(ticks)
    {
      if ticks.remaining == 0 {
        return None;
      }
      value := Some(ticks.cursor);
      ticks := Advanced(ticks);
    }
  }

  // ---------------------------------------------------------------- the ticks are the multiples

  lemma GridGap(a: int, b: int, step: int)
    requires step > 0 && OnGrid(a, step) && OnGrid(b, step) && a < b
    ensures a + step <= b
  {
    DivBounds(a, step);
    DivBounds(b, step);
    if b / step <= a / step {
      MulMono(b / step, a / step, step);
    } else {
      MulMono(a / step + 1, b / step, step);
    }
  }

  lemma OnGridFrom(a: int, k: int, step: int)
    requires step > 0
    ensures OnGrid(a + k * step, step) <==> OnGrid(a, step)
  {
    ModShift(a, k, step);
  }

  lemma FirstTickBrackets(low: int, step: int)
    requires step > 0
    ensures var first := FirstTick(low, step);
            OnGrid(first, step) && first - step < low <= first
  {
    hide GridFloor, OnGrid;
    GridFloorBrackets(low, step);
    OnGridFrom(GridFloor(low, step), 1, step);
  }

  /** `x` is the first tick or a whole number of steps past it, before the count runs out. */
  ghost predicate IsTick(first: int, count: nat, step: int, x: int) {
    exists k :: Steps(first, count, step, x, k)
  }

  ghost predicate Steps(first: int, count: nat, step: int, x: int, k: int) {
    0 <= k < count && x == first + k * step
  }

  lemma CountReaches(first: int, last: int, step: int, k: int)
    requires step > 0 && 0 <= k < Count(first, last, step)
    ensures first <= first + k * step <= last
  {
    DivBounds(last - first, step);
    MulMono(k, (last - first) / step, step);
    MulMono(0, k, step);
  }

  lemma CountCovers(first: int, last: int, step: int, x: int)
    requires step > 0 && OnGrid(first, step) && OnGrid(x, step) && first <= x <= last
    ensures Steps(first, Count(first, last, step), step, x, (x - first) / step)
  {
    DivMono(0, x - first, step);
    DivMono(x - first, last - first, step);
    DivBounds(first, step);
    DivBounds(x, step);
    var k := x / step - first / step;
    assert x - first == k * step by {
      hide Count, Steps;
    }
    DivUnique(x - first, step, k);
  }

  /** How many multiples of `step` there are from `low` to `high`, representable or not. */
  function Multiples(low: int, high: int, step: int): nat
    requires step > 0
  {
    Count(FirstTick(low, step), GridFloor(high, step), step)
  }

  /** Counting from the first finds every multiple in the range and nothing else. */
  lemma MultiplesAreCounted(low: int, high: int, step: int, x: int)
    requires step > 0
    ensures IsTick(FirstTick(low, step), Multiples(low, high, step), step, x) <==> low <= x <= high && OnGrid(x, step)
  {
    var first, last := FirstTick(low, step), GridFloor(high, step);
    var count := Count(first, last, step);
    FirstTickBrackets(low, step);
    GridFloorBrackets(high, step);
    hide GridFloor, OnGrid, FirstTick, Count;
    if IsTick(first, count, step, x) {
      var k :| Steps(first, count, step, x, k);
      CountReaches(first, last, step, k);
      OnGridFrom(first, k, step);
    }
    if low <= x <= high && OnGrid(x, step) {
      if x < first {
        GridGap(x, first, step);
      }
      if last < x {
        GridGap(last, x, step);
      }
      CountCovers(first, last, step, x);
    }
  }

  lemma TicksAreTheMultiples(low: int, high: int, step: int, x: int)
    requires step > 0 && TicksWithin(low, high, step).Some?
    ensures var ticks := TicksWithin(low, high, step).value;
            IsTick(ticks.cursor, ticks.remaining, step, x) <==> low <= x <= high && OnGrid(x, step)
  {
    MultiplesAreCounted(low, high, step, x);
  }

  /** Advancing never saturates before the last tick is out. */
  lemma {:induction false} YieldsSteps(ticks: AxisTicks, k: nat)
    requires k < ticks.remaining && ticks.step > 0 && FitsI64(ticks.cursor)
    requires FitsI64(ticks.cursor + (ticks.remaining - 1) * ticks.step)
    ensures Yielded(ticks)[k] == ticks.cursor + k * ticks.step
    decreases k
  {
    if k > 0 {
      MulMono(1, ticks.remaining - 1, ticks.step);
      assert (ticks.remaining - 1) * ticks.step == ticks.step + (ticks.remaining - 2) * ticks.step;
      assert k * ticks.step == ticks.step + (k - 1) * ticks.step;
      YieldsSteps(Advanced(ticks), k - 1);
    }
  }

  lemma YieldedAreTheTicks(low: int, high: int, step: int, x: int)
    requires step > 0 && TicksWithin(low, high, step).Some?
    ensures var ticks := TicksWithin(low, high, step).value;
            x in Yielded(ticks) <==> low <= x <= high && OnGrid(x, step)
  {
    var ticks := TicksWithin(low, high, step).value;
    TicksAreTheMultiples(low, high, step, x);
    if ticks.remaining > 0 {
      CountReaches(ticks.cursor, GridFloor(high, step), step, ticks.remaining - 1);
    }
    hide TicksWithin, OnGrid, Count, Yielded;
    forall k | 0 <= k < ticks.remaining
      ensures Yielded(ticks)[k] == ticks.cursor + k * step
    {
      YieldsSteps(ticks, k);
    }
    if IsTick(ticks.cursor, ticks.remaining, step, x) {
      var k :| Steps(ticks.cursor, ticks.remaining, step, x, k);
      assert Yielded(ticks)[k] == x;
    }
    if x in Yielded(ticks) {
      var k :| 0 <= k < ticks.remaining && Yielded(ticks)[k] == x;
      assert Steps(ticks.cursor, ticks.remaining, step, x, k);
    }
  }

  // ---------------------------------------------------------------- which rung is drawn

  /** A rung with too many multiples in the range. */
  predicate Crowds(low: int, high: int, ceiling: nat, i: nat) {
    Multiples(low, high, NiceStep(i)) > ceiling
  }

  /** A rung the search can measure: its multiples around `low` and before `high` are 64-bit numbers. */
  predicate Reaches(low: int, high: int, i: nat) {
    var step := NiceStep(i);
    FitsI64(GridFloor(low, step)) && FitsI64(FirstTick(low, step)) && FitsI64(GridFloor(high, step))
  }

  function TicksOf(low: int, high: int, i: nat): AxisTicks {
    AxisTicks(FirstTick(low, NiceStep(i)), Multiples(low, high, NiceStep(i)), NiceStep(i))
  }

  lemma TakenExactly(low: int, high: int, ceiling: nat, i: nat)
    requires ceiling <= U64_MAX
    ensures var ticks := TicksWithin(low, high, NiceStep(i));
            && (ticks.Some? ==> ticks.value == TicksOf(low, high, i))
            && (ticks.Some? && ticks.value.remaining <= ceiling <==>
                Reaches(low, high, i) && !Crowds(low, high, ceiling, i))
  {
    hide NiceStep, GridFloor, FirstTick, Count;
  }

  lemma {:induction false} SearchStopsAtTheFirst(low: int, high: int, ceiling: nat, from: nat) returns (rung: nat)
    requires from <= NICE_STEPS && ceiling <= U64_MAX
    ensures from <= rung <= NICE_STEPS
    ensures forall i :: from <= i < rung ==> Crowds(low, high, ceiling, i) || !Reaches(low, high, i)
    ensures rung < NICE_STEPS ==>
              && !Crowds(low, high, ceiling, rung) && Reaches(low, high, rung)
              && TicksWithin(low, high, NiceStep(rung)) == Some(FindTicks(low, high, ceiling, from))
    ensures rung == NICE_STEPS ==> FindTicks(low, high, ceiling, from) == NO_TICKS
    decreases NICE_STEPS - from
  {
    hide TicksWithin, NiceStep, Crowds, Reaches;
    if from == NICE_STEPS {
      return from;
    }
    TakenExactly(low, high, ceiling, from);
    if Reaches(low, high, from) && !Crowds(low, high, ceiling, from) {
      rung := from;
    } else {
      rung := SearchStopsAtTheFirst(low, high, ceiling, from + 1);
    }
  }

  /** The axis labels every multiple of its step in the range and nothing else, no more of them than asked for (or
      five, when fewer than five were asked for). Every finer rung either has too many multiples in the range or
      has one at an edge that 64 bits cannot hold. */
  lemma AxisIsTheFinestThatFits(low: I64, high: I64, maxTicks: U64) returns (rung: nat)
    requires maxTicks > 0
    ensures TicksFor(low, high, 0) == NO_TICKS
    ensures var ticks, ceiling := TicksFor(low, high, maxTicks), Max(maxTicks, MIN_TICK_CEILING);
            && rung <= NICE_STEPS
            && (forall i :: 0 <= i < rung ==> Crowds(low, high, ceiling, i) || !Reaches(low, high, i))
            && (rung == NICE_STEPS ==> ticks == NO_TICKS)
            && (rung < NICE_STEPS ==>
                  && ticks == TicksOf(low, high, rung) && |Yielded(ticks)| <= ceiling
                  && forall x :: x in Yielded(ticks) <==> low <= x <= high && OnGrid(x, NiceStep(rung)))
  {
    hide NiceStep, FindTicks, Yielded, OnGrid, Reaches, Multiples, FirstTick;
    rung := SearchStopsAtTheFirst(low, high, Max(maxTicks, MIN_TICK_CEILING), 0);
    if rung < NICE_STEPS {
      TakenExactly(low, high, Max(maxTicks, MIN_TICK_CEILING), rung);
      var ticks := TicksFor(low, high, maxTicks);
      forall x
        ensures x in Yielded(ticks) <==> low <= x <= high && OnGrid(x, NiceStep(rung))
      {
        YieldedAreTheTicks(low, high, NiceStep(rung), x);
      }
    }
  }

  // ---------------------------------------------------------------- and when that is the finest of all

  /** The first rung from the `i`th with few enough multiples, whether or not they can be represented. */
  function FinestRung(low: int, high: int, ceiling: nat, i: nat): (rung: nat)
    requires i <= NICE_STEPS
    ensures i <= rung <= NICE_STEPS
    ensures forall k :: i <= k < rung ==> Crowds(low, high, ceiling, k)
    ensures rung < NICE_STEPS ==> !Crowds(low, high, ceiling, rung)
    decreases NICE_STEPS - i
  {
    if i == NICE_STEPS || !Crowds(low, high, ceiling, i) then i else FinestRung(low, high, ceiling, i + 1)
  }

  /** Each rung is coarser than the one before. */
  lemma LadderRises(i: nat)
    ensures NiceStep(i) < NiceStep(i + 1)
  {
  }

  lemma {:induction false} LadderClimbs(i: nat, j: nat)
    requires i < j
    ensures NiceStep(i) < NiceStep(j)
  {
    hide NiceStep;
    LadderRises(j - 1);
    if i < j - 1 {
      LadderClimbs(i, j - 1);
    }
  }

  lemma UnitStepReaches(low: I64, high: I64)
    ensures NiceStep(0) == 1 && Reaches(low, high, 0)
  {
    assert Pow10(0) == 1;
  }

  /** The axis is drawn at the finest rung that does not crowd it exactly when that rung can be measured; when none
      is free of crowding, nothing is drawn. */
  lemma FinestIsDrawnExactly(low: I64, high: I64, maxTicks: U64)
    requires maxTicks > 0
    ensures var ticks := TicksFor(low, high, maxTicks);
            var finest := FinestRung(low, high, Max(maxTicks, MIN_TICK_CEILING), 0);
            && (finest == NICE_STEPS ==> ticks == NO_TICKS)
            && (finest < NICE_STEPS ==> (ticks == TicksOf(low, high, finest) <==> Reaches(low, high, finest)))
  {
    hide NiceStep, FindTicks, Reaches, Crowds, TicksWithin, Multiples, FirstTick;
    var ceiling := Max(maxTicks, MIN_TICK_CEILING);
    var finest := FinestRung(low, high, ceiling, 0);
    var rung := SearchStopsAtTheFirst(low, high, ceiling, 0);
    UnitStepReaches(low, high);
    assert finest <= rung;
    if rung < NICE_STEPS {
      TakenExactly(low, high, ceiling, rung);
    }
    if finest < rung {
      LadderClimbs(finest, rung);
      if finest > 0 {
        LadderClimbs(0, finest);
      }
    }
  }

  const COARSEST: int := 5 * Pow10(MAX_STEP_DECADE)

  lemma CoarsestIsLast(i: nat)
    requires i < NICE_STEPS
    ensures NiceStep(i) <= COARSEST
  {
    assert NiceStep(NICE_STEPS - 1) == COARSEST;
    hide NiceStep;
    if i < NICE_STEPS - 1 {
      LadderClimbs(i, NICE_STEPS - 1);
    }
  }

  /** So a range that starts at least the coarsest step from both ends of 64 bits always gets it. */
  lemma NothingIsSkippedAwayFromTheEnds(low: I64, high: I64, i: nat)
    requires I64_MIN + COARSEST <= low <= I64_MAX - COARSEST && low <= high && i < NICE_STEPS
    ensures Reaches(low, high, i)
  {
    CoarsestIsLast(i);
    GridFloorBrackets(low, NiceStep(i));
    GridFloorBrackets(high, NiceStep(i));
    FirstTickBrackets(low, NiceStep(i));
    hide NiceStep, GridFloor, FirstTick, OnGrid;
  }

  lemma StepsPastTwoAreFives(i: nat)
    requires i >= 2
    ensures NiceStep(i) % 5 == 0
  {
    if i >= 3 {
      assert Pow10(i / 3) == 5 * (2 * Pow10(i / 3 - 1));
      ModShift(0, 2 * Pow10(i / 3 - 1) * (match i % 3 case 0 => 1 case 1 => 2 case _ => 5), 5);
    }
  }

  lemma LowestIsNoMultiple(high: int, i: nat)
    requires i >= 2
    ensures !Reaches(I64_MIN, high, i)
  {
    var step := NiceStep(i);
    StepsPastTwoAreFives(i);
    GridFloorBrackets(I64_MIN, step);
    if OnGrid(I64_MIN, step) {
      MultipleOfAMultiple(I64_MIN, step, 5);
    }
  }

  lemma MultipleOfAMultiple(x: int, step: int, part: int)
    requires step > 0 && part > 0 && x % step == 0 && step % part == 0
    ensures x % part == 0
  {
    DivMod(x, step);
    DivMod(step, part);
    assert x == x / step * (step / part) * part;
    ModShift(0, x / step * (step / part), part);
  }

  /** At the very end of 64 bits it need not: here five is fine enough, with two multiples in the range, and the
      axis is left empty. */
  lemma TheEndsCanGoUnlabelled()
    ensures var low, high := I64_MIN, I64_MIN + 11;
            && FinestRung(low, high, 5, 0) == 2 && NiceStep(2) == 5 && Multiples(low, high, 5) == 2
            && TicksFor(low, high, 5) == NO_TICKS
  {
    var low, high: int := I64_MIN, I64_MIN + 11;
    assert Pow10(0) == 1;
    assert NiceStep(0) == 1 && NiceStep(1) == 2 && NiceStep(2) == 5;
    assert Multiples(low, high, 1) == 12 && Multiples(low, high, 2) == 6 && Multiples(low, high, 5) == 2;
    hide NiceStep, Multiples, FindTicks, Reaches, GridFloor, FirstTick;
    assert FinestRung(low, high, 5, 1) == FinestRung(low, high, 5, 2) == 2;
    var rung := SearchStopsAtTheFirst(low, high, 5, 0);
    if rung < NICE_STEPS {
      if rung >= 2 {
        LowestIsNoMultiple(high, rung);
      }
    }
  }
}
