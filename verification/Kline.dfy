/** Candle sequencing (src/adapters/binance/kline.rs): backfilled rows and live candles merged into one series
    of final candles with no repeats and no holes. */
module Kline {
  import opened Common
  import Arith

  /** A candle: when it opens, whether it is final, when it was received, and everything else it carries. */
  datatype Candle<T> = Candle(open: int, isClosed: bool, received: int, body: T)

  datatype Outcome = Forwarded | Duplicate | Gap(missingFrom: int, nextOpen: int)

  // ---------------------------------------------------------------- the sequencer, as a value

  /** The anchor (the last final open), the newest receive stamp sent, and what was sent. */
  datatype Merge<T> = Merge(lastClosed: Option<int>, lastReceived: Option<int>, emitted: seq<Candle<T>>)

  /** Where the interval has no fixed span (a month), no open is expected. */
  function NextExpected<T>(interval: Option<int>, m: Merge<T>): Option<int> {
    if m.lastClosed.Some? && interval.Some? then Some(m.lastClosed.value + interval.value) else None
  }

  predicate IsStale<T>(m: Merge<T>, open: int) {
    m.lastClosed.Some? && open <= m.lastClosed.value
  }

  function GapStart<T>(interval: Option<int>, m: Merge<T>, open: int): Option<int> {
    var expected := NextExpected(interval, m);
    if expected.Some? && open > expected.value then expected else None
  }

  function Clamped<T>(m: Merge<T>, candle: Candle<T>): Candle<T> {
    if m.lastReceived.Some? then candle.(received := Max(candle.received, m.lastReceived.value)) else candle
  }

  function Emitted<T>(m: Merge<T>, candle: Candle<T>): Merge<T> {
    var sent := Clamped(m, candle);
    m.(lastReceived := Some(sent.received), emitted := m.emitted + [sent])
  }

  function EmittedClosed<T>(m: Merge<T>, candle: Candle<T>): Merge<T> {
    Emitted(m, candle).(lastClosed := Some(candle.open))
  }

  function LiveOutcome<T>(interval: Option<int>, m: Merge<T>, candle: Candle<T>): Outcome {
    if IsStale(m, candle.open) then Duplicate
    else if candle.isClosed && GapStart(interval, m, candle.open).Some? then
      Gap(GapStart(interval, m, candle.open).value, candle.open)
    else Forwarded
  }

  function OnLive<T>(interval: Option<int>, m: Merge<T>, candle: Candle<T>): Merge<T> {
    if LiveOutcome(interval, m, candle) != Forwarded then m
    else if candle.isClosed then EmittedClosed(m, candle)
    else Emitted(m, candle)
  }

  /** Rows already final or still forming are passed over; the first hole ends the batch. */
  function OnBackfill<T>(interval: Option<int>, m: Merge<T>, rows: seq<Candle<T>>): Merge<T>
    decreases rows
  {
    if rows == [] then m
    else if !rows[0].isClosed || IsStale(m, rows[0].open) then OnBackfill(interval, m, rows[1..])
    else if GapStart(interval, m, rows[0].open).Some? then m
    else OnBackfill(interval, EmittedClosed(m, rows[0]), rows[1..])
  }

  // ---------------------------------------------------------------- what becomes of a candle

  /** A live candle is a repeat, leaves a hole, or goes out: a repeat opens no later than the last final one, and only a
      final candle can leave a hole. What goes out is the candle, stamped no earlier than what went before. */
  lemma LiveCandlesGoOut<T>(interval: Option<int>, m: Merge<T>, candle: Candle<T>)
    ensures var outcome, m' := LiveOutcome(interval, m, candle), OnLive(interval, m, candle);
            var repeats := m.lastClosed.Some? && candle.open <= m.lastClosed.value;
            var skips := candle.isClosed && m.lastClosed.Some? && interval.Some?
                         && candle.open > m.lastClosed.value + interval.value;
            var received := if m.lastReceived.Some? && m.lastReceived.value > candle.received
                            then m.lastReceived.value else candle.received;
            && (repeats ==> outcome == Duplicate && m' == m)
            && (!repeats && skips ==> outcome == Gap(m.lastClosed.value + interval.value, candle.open) && m' == m)
            && (!repeats && !skips ==>
                  && outcome == Forwarded
                  && m'.emitted == m.emitted + [Candle(candle.open, candle.isClosed, received, candle.body)]
                  && m'.lastReceived == Some(received)
                  && m'.lastClosed == (if candle.isClosed then Some(candle.open) else m.lastClosed))
  {
  }

  /** Rows still forming are as if they had not come. */
  lemma {:induction false} FormingRowsArePassedOver<T>(interval: Option<int>, m: Merge<T>, rows: seq<Candle<T>>)
    ensures OnBackfill(interval, m, rows) == OnBackfill(interval, m, Filter((row: Candle<T>) => row.isClosed, rows))
    decreases rows
  {
    var isFinal := (row: Candle<T>) => row.isClosed;
    if rows != [] {
      var rest := Filter(isFinal, rows[1..]);
      if rows[0].isClosed {
        assert Filter(isFinal, rows)[1..] == rest;
        FormingRowsArePassedOver(interval, m, rows[1..]);
        FormingRowsArePassedOver(interval, EmittedClosed(m, rows[0]), rows[1..]);
      } else {
        FormingRowsArePassedOver(interval, m, rows[1..]);
      }
    }
  }

  /** A final row past the next expected open ends the batch: it and everything after it are left out. */
  lemma {:induction false} BackfillEndsAtAHole<T>(interval: Option<int>, m: Merge<T>, front: seq<Candle<T>>,
                                                  hole: Candle<T>, rest: seq<Candle<T>>)
    requires hole.isClosed
    requires var filled := OnBackfill(interval, m, front);
             filled.lastClosed.Some? && interval.Some? && interval.value >= 0
             && hole.open > filled.lastClosed.value + interval.value
    ensures OnBackfill(interval, m, front + [hole] + rest) == OnBackfill(interval, m, front)
    decreases front
  {
    var rows := front + [hole] + rest;
    if front == [] {
      assert rows[0] == hole;
    } else {
      assert rows[0] == front[0] && rows[1..] == front[1..] + [hole] + rest;
      if !front[0].isClosed || IsStale(m, front[0].open) {
        BackfillEndsAtAHole(interval, m, front[1..], hole, rest);
      } else if GapStart(interval, m, front[0].open).None? {
        BackfillEndsAtAHole(interval, EmittedClosed(m, front[0]), front[1..], hole, rest);
      }
    }
  }

  // ---------------------------------------------------------------- the sequencer

  class KlineSequencer<T> {
    const interval: Option<int>
    var lastClosedOpen: Option<int>
    var lastEmittedReceived: Option<int>
    ghost var emitted: seq<Candle<T>>

    ghost function View(): Merge<T>
      reads this
    {
      Merge(lastClosedOpen, lastEmittedReceived, emitted)
    }

    constructor (interval: Option<int>)
      ensures this.interval == interval && View() == Merge(None, None, [])
    {
      this.interval := interval;
      lastClosedOpen, lastEmittedReceived, emitted := None, None, [];
    }

    method ExpectedOpen() returns (expected: Option<int>)
      ensures expected == NextExpected(interval, View())
    {
      expected := if lastClosedOpen.Some? && interval.Some? then Some(lastClosedOpen.value + interval.value) else None;
    }

    method FindGap(open: int) returns (missingFrom: Option<int>)
      ensures missingFrom == GapStart(interval, View(), open)
    {
      missingFrom := ExpectedOpen();
      if missingFrom.Some? && open <= missingFrom.value {
        missingFrom := None;
      }
    }

    method EmitClamped(candle: Candle<T>)
      modifies this
      ensures View() == Emitted(old(View()), candle)
    {
      var sent := candle;
      if lastEmittedReceived.Some? {
        sent := sent.(received := Max(sent.received, lastEmittedReceived.value));
      }
      lastEmittedReceived := Some(sent.received);
      emitted := emitted + [sent];
    }

    method EmitClosed(candle: Candle<T>)
      modifies this
      ensures View() == EmittedClosed(old(View()), candle)
    {
      EmitClamped(candle);
      lastClosedOpen := Some(candle.open);
    }

    method TakeLive(candle: Candle<T>) returns (outcome: Outcome)
      modifies this
      ensures outcome == LiveOutcome(interval, old(View()), candle)
      ensures View() == OnLive(interval, old(View()), candle)
    {
      if lastClosedOpen.Some? && candle.open <= lastClosedOpen.value {
        return Duplicate;
      }
      if candle.isClosed {
        var missingFrom := FindGap(candle.open);
        if missingFrom.Some? {
          return Gap(missingFrom.value, candle.open);
        }
        EmitClosed(candle);
        return Forwarded;
      }
      EmitClamped(candle);
      outcome := Forwarded;
    }

    method TakeBackfill(rows: seq<Candle<T>>)
      modifies this
      ensures View() == OnBackfill(interval, old(View()), rows)
    {
      var i := 0;
      while i < |rows|
        invariant i <= |rows|
        invariant OnBackfill(interval, View(), rows[i..]) == OnBackfill(interval, old(View()), rows)
      {
        var row := rows[i];
        assert rows[i..][1..] == rows[i + 1..];
        i := i + 1;
        if !row.isClosed || (lastClosedOpen.Some? && row.open <= lastClosedOpen.value) {
          continue;
        }
        var missingFrom := FindGap(row.open);
        if missingFrom.Some? {
          return;
        }
        EmitClosed(row);
      }
    }
  }

  // ---------------------------------------------------------------- runs

  datatype Step<T> = Live(candle: Candle<T>) | Backfill(rows: seq<Candle<T>>)

  function Next<T>(interval: Option<int>, m: Merge<T>, step: Step<T>): Merge<T> {
    match step
    case Live(candle) => OnLive(interval, m, candle)
    case Backfill(rows) => OnBackfill(interval, m, rows)
  }

  function Run<T>(interval: Option<int>, steps: seq<Step<T>>): Merge<T>
    decreases |steps|
  {
    if steps == [] then Merge(None, None, [])
    else Next(interval, Run(interval, steps[..|steps| - 1]), steps[|steps| - 1])
  }

  /** The opens of the final candles sent, in order. */
  function ClosedOpens<T>(emitted: seq<Candle<T>>): seq<int> {
    if emitted == [] then []
    else
      var last := emitted[|emitted| - 1];
      ClosedOpens(emitted[..|emitted| - 1]) + if last.isClosed then [last.open] else []
  }

  /** Neighbours rise, by no more than the interval. */
  ghost predicate NoHoles(opens: seq<int>, interval: Option<int>) {
    forall k :: 0 < k < |opens| ==>
      opens[k - 1] < opens[k] && (interval.Some? ==> opens[k] <= opens[k - 1] + interval.value)
  }

  /** A final candle is final: nothing sent after it, forming or final, is for its open or an earlier one. */
  ghost predicate FinalStays<T>(emitted: seq<Candle<T>>) {
    forall i, j :: 0 <= i < j < |emitted| && emitted[i].isClosed ==> emitted[i].open < emitted[j].open
  }

  ghost predicate StampsRise<T>(emitted: seq<Candle<T>>) {
    forall i, j :: 0 <= i < j < |emitted| ==> emitted[i].received <= emitted[j].received
  }

  /** The anchor is the last final open sent, so it is above every one of them. */
  ghost predicate Anchored<T>(m: Merge<T>) {
    && m.lastClosed == (var opens := ClosedOpens(m.emitted); if opens == [] then None else Some(opens[|opens| - 1]))
    && (forall c :: c in m.emitted && c.isClosed ==> m.lastClosed.Some? && c.open <= m.lastClosed.value)
  }

  ghost predicate Floored<T>(m: Merge<T>) {
    && m.lastReceived == (if m.emitted == [] then None else Some(m.emitted[|m.emitted| - 1].received))
    && (forall c :: c in m.emitted ==> c.received <= m.emitted[|m.emitted| - 1].received)
  }

  ghost predicate Kept<T>(interval: Option<int>, m: Merge<T>) {
    && Anchored(m) && Floored(m)
    && NoHoles(ClosedOpens(m.emitted), interval) && FinalStays(m.emitted) && StampsRise(m.emitted)
  }

  lemma OpensSnoc<T>(emitted: seq<Candle<T>>, candle: Candle<T>)
    ensures ClosedOpens(emitted + [candle]) == ClosedOpens(emitted) + if candle.isClosed then [candle.open] else []
  {
  }

  lemma EmissionKeeps<T>(interval: Option<int>, m: Merge<T>, candle: Candle<T>)
    requires Kept(interval, m) && !IsStale(m, candle.open)
    requires candle.isClosed ==> GapStart(interval, m, candle.open).None?
    ensures Kept(interval, if candle.isClosed then EmittedClosed(m, candle) else Emitted(m, candle))
  {
    SendingKeepsTheAnchor(m, candle);
    SendingKeepsTheFloor(m, candle);
    SendingLeavesNoHole(interval, m, candle);
    SendingIsFinal(m, candle);
    hide Anchored, Floored, NoHoles, FinalStays, StampsRise;
  }

  lemma SendingKeepsTheAnchor<T>(m: Merge<T>, candle: Candle<T>)
    requires Anchored(m) && !IsStale(m, candle.open)
    ensures Anchored(if candle.isClosed then EmittedClosed(m, candle) else Emitted(m, candle))
  {
    OpensSnoc(m.emitted, Clamped(m, candle));
    hide ClosedOpens;
  }

  lemma SendingKeepsTheFloor<T>(m: Merge<T>, candle: Candle<T>)
    requires Floored(m) && StampsRise(m.emitted)
    ensures Floored(if candle.isClosed then EmittedClosed(m, candle) else Emitted(m, candle))
    ensures StampsRise(Emitted(m, candle).emitted)
  {
    assert forall c :: c in m.emitted ==> c.received <= Clamped(m, candle).received;
  }

  lemma SendingLeavesNoHole<T>(interval: Option<int>, m: Merge<T>, candle: Candle<T>)
    requires Anchored(m) && NoHoles(ClosedOpens(m.emitted), interval) && !IsStale(m, candle.open)
    requires candle.isClosed ==> GapStart(interval, m, candle.open).None?
    ensures NoHoles(ClosedOpens(Emitted(m, candle).emitted), interval)
  {
    OpensSnoc(m.emitted, Clamped(m, candle));
    hide ClosedOpens;
  }

  lemma SendingIsFinal<T>(m: Merge<T>, candle: Candle<T>)
    requires Anchored(m) && FinalStays(m.emitted) && !IsStale(m, candle.open)
    ensures FinalStays(Emitted(m, candle).emitted)
  {
    hide ClosedOpens;
  }

  lemma {:induction false} BackfillKeeps<T>(interval: Option<int>, m: Merge<T>, rows: seq<Candle<T>>)
    requires Kept(interval, m)
    ensures Kept(interval, OnBackfill(interval, m, rows))
    decreases rows
  {
    hide Kept;
    if rows != [] {
      if !rows[0].isClosed || IsStale(m, rows[0].open) {
        BackfillKeeps(interval, m, rows[1..]);
      } else if GapStart(interval, m, rows[0].open).None? {
        EmissionKeeps(interval, m, rows[0]);
        BackfillKeeps(interval, EmittedClosed(m, rows[0]), rows[1..]);
      }
    }
  }

  lemma {:induction false} EveryRunIsKept<T>(interval: Option<int>, steps: seq<Step<T>>)
    ensures Kept(interval, Run(interval, steps))
    decreases |steps|
  {
    if steps != [] {
      hide Kept;
      var before, last := Run(interval, steps[..|steps| - 1]), steps[|steps| - 1];
      EveryRunIsKept(interval, steps[..|steps| - 1]);
      match last
      case Live(candle) =>
        if LiveOutcome(interval, before, candle) == Forwarded {
          EmissionKeeps(interval, before, candle);
        }
      case Backfill(rows) => BackfillKeeps(interval, before, rows);
    }
  }

  // ---------------------------------------------------------------- the theorems

  /** Final candles rise strictly and leave no hole wider than the interval; stamps never step back; nothing
      rewrites a final candle. */
  lemma SeriesHasNoHoles<T>(interval: Option<int>, steps: seq<Step<T>>)
    ensures var emitted := Run(interval, steps).emitted;
            NoHoles(ClosedOpens(emitted), interval) && FinalStays(emitted) && StampsRise(emitted)
  {
    hide Next;
    EveryRunIsKept(interval, steps);
  }

  lemma OneApart(a: int, b: int, interval: int)
    requires interval > 0 && a < b <= a + interval && a % interval == b % interval
    ensures b == a + interval
  {
    Arith.DivBounds(a, interval);
    Arith.DivBounds(b, interval);
    var steps := b / interval - a / interval;
    assert b - a == steps * interval;
    if steps >= 2 {
      Arith.MulMono(2, steps, interval);
    }
    if steps <= 0 {
      Arith.MulMono(steps, 0, interval);
    }
  }

  /** Final candles open on the grid of this residue. */
  ghost predicate OnGrid<T>(candles: seq<Candle<T>>, interval: int, residue: int)
    requires interval > 0
  {
    forall candle :: candle in candles && candle.isClosed ==> candle.open % interval == residue
  }

  function CandlesOf<T>(step: Step<T>): seq<Candle<T>> {
    match step
    case Live(candle) => [candle]
    case Backfill(rows) => rows
  }

  /** So do all the final candles a run receives. */
  ghost predicate AllOnGrid<T>(steps: seq<Step<T>>, interval: int, residue: int)
    requires interval > 0
  {
    forall step :: step in steps ==> OnGrid(CandlesOf(step), interval, residue)
  }

  ghost predicate OpensOn(opens: seq<int>, interval: int, residue: int)
    requires interval > 0
  {
    forall k :: 0 <= k < |opens| ==> opens[k] % interval == residue
  }

  lemma {:induction false} BackfillStaysOn<T>(interval: int, m: Merge<T>, rows: seq<Candle<T>>, residue: int)
    requires interval > 0 && OpensOn(ClosedOpens(m.emitted), interval, residue) && OnGrid(rows, interval, residue)
    ensures OpensOn(ClosedOpens(OnBackfill(Some(interval), m, rows).emitted), interval, residue)
    decreases rows
  {
    hide ClosedOpens;
    if rows != [] {
      assert rows[0] in rows && forall row :: row in rows[1..] ==> row in rows;
      OpensSnoc(m.emitted, Clamped(m, rows[0]));
      BackfillStaysOn(interval, m, rows[1..], residue);
      if rows[0].isClosed {
        BackfillStaysOn(interval, EmittedClosed(m, rows[0]), rows[1..], residue);
      }
    }
  }

  lemma StepStaysOn<T>(interval: int, m: Merge<T>, step: Step<T>, residue: int)
    requires interval > 0 && OpensOn(ClosedOpens(m.emitted), interval, residue)
    requires OnGrid(CandlesOf(step), interval, residue)
    ensures OpensOn(ClosedOpens(Next(Some(interval), m, step).emitted), interval, residue)
  {
    match step
    case Live(candle) =>
      assert candle in CandlesOf(step);
      OpensSnoc(m.emitted, Clamped(m, candle));
      hide ClosedOpens;
    case Backfill(rows) =>
      hide ClosedOpens, OpensOn, OnBackfill;
      BackfillStaysOn(interval, m, rows, residue);
  }

  lemma {:induction false} RunStaysOn<T>(interval: int, steps: seq<Step<T>>, residue: int)
    requires interval > 0 && AllOnGrid(steps, interval, residue)
    ensures OpensOn(ClosedOpens(Run(Some(interval), steps).emitted), interval, residue)
    decreases |steps|
  {
    if steps != [] {
      hide ClosedOpens, OpensOn, OnBackfill, OnLive;
      var front, last := steps[..|steps| - 1], steps[|steps| - 1];
      assert last in steps && forall step :: step in front ==> step in steps;
      RunStaysOn(interval, front, residue);
      StepStaysOn(interval, Run(Some(interval), front), last, residue);
    }
  }

  lemma {:induction false} GridSteps(opens: seq<int>, interval: int, residue: int, k: nat)
    requires interval > 0 && NoHoles(opens, Some(interval)) && OpensOn(opens, interval, residue) && k < |opens|
    ensures opens[k] == opens[0] + k * interval
  {
    if k > 0 {
      GridSteps(opens, interval, residue, k - 1);
      OneApart(opens[k - 1], opens[k], interval);
    }
  }

  /** When the final candles received open on one grid, the series sent is the grid itself, from its first candle
      on. */
  lemma SeriesIsTheGrid<T>(interval: int, steps: seq<Step<T>>, residue: int, k: nat)
    requires interval > 0 && AllOnGrid(steps, interval, residue)
    requires k < |ClosedOpens(Run(Some(interval), steps).emitted)|
    ensures var opens := ClosedOpens(Run(Some(interval), steps).emitted);
            opens[k] == opens[0] + k * interval
  {
    hide Run, ClosedOpens, AllOnGrid;
    SeriesHasNoHoles(Some(interval), steps);
    RunStaysOn(interval, steps, residue);
    GridSteps(ClosedOpens(Run(Some(interval), steps).emitted), interval, residue, k);
  }

  /** A reported gap sends nothing and leaves the anchor where it was, right before the first missing open. */
  lemma GapLeavesTheAnchor<T>(interval: Option<int>, m: Merge<T>, candle: Candle<T>)
    requires LiveOutcome(interval, m, candle).Gap?
    ensures OnLive(interval, m, candle) == m
    ensures var gap := LiveOutcome(interval, m, candle);
            && m.lastClosed.Some? && interval.Some? && gap.missingFrom == m.lastClosed.value + interval.value
            && gap.nextOpen == candle.open > gap.missingFrom
  {
  }

  /** Final rows one interval apart, the first at `from`. */
  ghost predicate Contiguous<T>(rows: seq<Candle<T>>, from: int, interval: int) {
    rows != [] ==> rows[0].isClosed && rows[0].open == from && Contiguous(rows[1..], from + interval, interval)
  }

  function Opens<T>(rows: seq<Candle<T>>): seq<int> {
    if rows == [] then [] else [rows[0].open] + Opens(rows[1..])
  }

  lemma {:induction false} MissingRowsLand<T>(interval: int, m: Merge<T>, rows: seq<Candle<T>>)
    requires interval > 0 && m.lastClosed.Some? && Contiguous(rows, m.lastClosed.value + interval, interval)
    ensures var after := OnBackfill(Some(interval), m, rows);
            && after.lastClosed == Some(if rows == [] then m.lastClosed.value else rows[|rows| - 1].open)
            && ClosedOpens(after.emitted) == ClosedOpens(m.emitted) + Opens(rows)
    decreases rows
  {
    if rows == [] {
      return;
    }
    hide ClosedOpens, Clamped;
    var next := EmittedClosed(m, rows[0]);
    OpensSnoc(m.emitted, Clamped(m, rows[0]));
    assert ClosedOpens(next.emitted) == ClosedOpens(m.emitted) + [rows[0].open];
    assert OnBackfill(Some(interval), m, rows) == OnBackfill(Some(interval), next, rows[1..]);
    hide EmittedClosed, OnBackfill;
    MissingRowsLand(interval, next, rows[1..]);
    assert Opens(rows) == [rows[0].open] + Opens(rows[1..]);
  }

  lemma {:induction false} OverlapIsSkipped<T>(interval: Option<int>, m: Merge<T>,
      overlap: seq<Candle<T>>, rows: seq<Candle<T>>)
    requires forall row :: row in overlap ==> !row.isClosed || IsStale(m, row.open)
    ensures OnBackfill(interval, m, overlap + rows) == OnBackfill(interval, m, rows)
  {
    if overlap == [] {
      assert overlap + rows == rows;
    } else {
      assert overlap[0] in overlap && (overlap + rows)[1..] == overlap[1..] + rows;
      OverlapIsSkipped(interval, m, overlap[1..], rows);
    }
  }

  /** A gap heals: backfill the missing candles, however much already-final history comes with them, and the
      candle that reported the gap goes through, each missing open sent once before it. */
  lemma GapHeals<T>(interval: int, m: Merge<T>, overlap: seq<Candle<T>>, missing: seq<Candle<T>>, candle: Candle<T>)
    requires interval > 0 && candle.isClosed && missing != []
    requires LiveOutcome(Some(interval), m, candle) == Gap(missing[0].open, candle.open)
    requires Contiguous(missing, missing[0].open, interval) && candle.open == missing[|missing| - 1].open + interval
    requires forall row :: row in overlap ==> !row.isClosed || IsStale(m, row.open)
    ensures var healed := OnBackfill(Some(interval), m, overlap + missing);
            && LiveOutcome(Some(interval), healed, candle) == Forwarded
            && ClosedOpens(OnLive(Some(interval), healed, candle).emitted)
               == ClosedOpens(m.emitted) + Opens(missing) + [candle.open]
  {
    OverlapIsSkipped(Some(interval), m, overlap, missing);
    MissingRowsLand(interval, m, missing);
    var healed := OnBackfill(Some(interval), m, missing);
    OpensSnoc(healed.emitted, Clamped(healed, candle));
  }
}
