/** The per-instrument position ledger (src/hot/ledger.rs): position, cash and cost basis in exact integer
    mantissas, folded fill by fill. A value that leaves `i64` panics in the program; here the fold then has
    no result. */
module Ledger {
  import opened Common
  import opened Arith

  datatype LedgerRow = LedgerRow(
    positionBase: I64, cashQuote: I64, basisQuote: I64, realisedAtBoot: I64, mark: Option<I64>)

  const EMPTY_ROW := LedgerRow(0, 0, 0, 0, None)

  datatype LedgerFill = LedgerFill(instrument: nat, side: Side, base: I64, notionalQuote: I64, commissionQuote: I64)

  datatype InstrumentExposure = InstrumentExposure(instrument: nat, positionBase: I64, cashQuote: I64, basisQuote: I64)

  function Signum(x: int): int {
    if x > 0 then 1 else if x < 0 then -1 else 0
  }

  /** How much of the position a change of `baseDelta` closes. */
  function Closed(position: int, baseDelta: int): (closed: nat)
    ensures closed > 0 ==> closed <= Abs(position) && closed <= Abs(baseDelta)
  {
    if Signum(position) == -Signum(baseDelta) then Min(Abs(position), Abs(baseDelta)) else 0
  }

  function BaseDelta(fill: LedgerFill): int {
    var base: int := fill.base;
    if fill.side.Buy? then base else -base
  }

  function CostDelta(fill: LedgerFill): int {
    var cost: int := fill.notionalQuote;
    if fill.side.Buy? then cost else -cost
  }

  function RolledBasis(position: int, basis: int, baseDelta: int, costDelta: int): int {
    var closed := Closed(position, baseDelta);
    if closed == 0 then basis + costDelta
    else
      var released := TruncDiv(basis * closed, Abs(position));
      var openedCost := costDelta - TruncDiv(costDelta * closed, Abs(baseDelta));
      basis - released + openedCost
  }

  /** The row after a fill; nothing where a value leaves `i64`. */
  function Filled(row: LedgerRow, fill: LedgerFill): Option<LedgerRow> {
    var basis := RolledBasis(row.positionBase, row.basisQuote, BaseDelta(fill), CostDelta(fill));
    var position := row.positionBase + BaseDelta(fill);
    var cash := row.cashQuote - CostDelta(fill) - fill.commissionQuote;
    if FitsI64(basis) && FitsI64(position) && FitsI64(cash) then
      Some(row.(positionBase := position, cashQuote := cash, basisQuote := basis))
    else None
  }

  function FilledAll(row: LedgerRow, fills: seq<LedgerFill>): Option<LedgerRow> {
    if fills == [] then Some(row)
    else
      match FilledAll(row, fills[..|fills| - 1])
      case None => None
      case Some(before) => Filled(before, fills[|fills| - 1])
  }

  function Realised(row: LedgerRow): int {
    row.cashQuote + row.basisQuote
  }

  // ---------------------------------------------------------------- what every fill keeps

  /** What the fill stream promises: sizes and values are unsigned, and a fill of nothing is worth nothing. */
  predicate Plain(fill: LedgerFill) {
    fill.base >= 0 && fill.notionalQuote >= 0 && (fill.base == 0 ==> fill.notionalQuote == 0)
  }

  predicate Coherent(row: LedgerRow) {
    && (row.positionBase == 0 ==> row.basisQuote == 0)
    && (row.positionBase > 0 ==> row.basisQuote >= 0)
    && (row.positionBase < 0 ==> row.basisQuote <= 0)
  }

  /** A share of an amount in whole mantissas. */
  function Share(x: nat, part: nat, whole: int): int
    requires whole > 0
  {
    x * part / whole
  }

  /** In magnitudes a closing fill is the same for longs and shorts: it releases the closed share of the
      basis, and opens with whatever part of the fill's cost the closing did not use up. */
  lemma RolledMagnitude(position: int, basis: int, baseDelta: int, costDelta: int)
    requires position != 0 && Closed(position, baseDelta) > 0
    requires if position > 0 then basis >= 0 && costDelta <= 0 else basis <= 0 && costDelta >= 0
    ensures var closed := Closed(position, baseDelta);
            var released := Share(Abs(basis), closed, Abs(position));
            var leftover := Abs(costDelta) - Share(Abs(costDelta), closed, Abs(baseDelta));
            && 0 <= released <= Abs(basis) && (closed == Abs(position) ==> released == Abs(basis))
            && 0 <= leftover <= Abs(costDelta) && (closed == Abs(baseDelta) ==> leftover == 0)
            && RolledBasis(position, basis, baseDelta, costDelta)
               == if position > 0 then Abs(basis) - released - leftover else -(Abs(basis) - released) + leftover
  {
    var closed := Closed(position, baseDelta);
    ShareBounds(Abs(basis), closed, Abs(position));
    ShareBounds(Abs(costDelta), closed, Abs(baseDelta));
    TruncatedShare(basis, closed, Abs(position));
    TruncatedShare(costDelta, closed, Abs(baseDelta));
  }

  lemma TruncatedShare(x: int, part: nat, whole: int)
    requires whole > 0
    ensures TruncDiv(x * part, whole) == if x >= 0 then Share(x, part, whole) else -Share(-x, part, whole)
  {
  }

  /** The basis keeps the position's sign, and a flat position has no basis at all. */
  lemma FillKeepsCoherent(row: LedgerRow, fill: LedgerFill)
    requires Coherent(row) && Plain(fill) && Filled(row, fill).Some?
    ensures Coherent(Filled(row, fill).value)
  {
    if Closed(row.positionBase, BaseDelta(fill)) > 0 {
      RolledMagnitude(row.positionBase, row.basisQuote, BaseDelta(fill), CostDelta(fill));
    }
  }

  lemma {:induction false} RunKeepsCoherent(row: LedgerRow, fills: seq<LedgerFill>)
    requires Coherent(row) && (forall fill :: fill in fills ==> Plain(fill)) && FilledAll(row, fills).Some?
    ensures Coherent(FilledAll(row, fills).value)
  {
    if fills != [] {
      RunKeepsCoherent(row, fills[..|fills| - 1]);
      FillKeepsCoherent(FilledAll(row, fills[..|fills| - 1]).value, fills[|fills| - 1]);
    }
  }

  /** An unsigned fill of nothing that is worth something moves the basis and not the position. A row survives it
      only where it has a position, and the value is on that position's side or no more than the basis it eats. */
  predicate Survives(row: LedgerRow, fill: LedgerFill) {
    row.positionBase != 0 && ((fill.side.Buy? <==> row.positionBase > 0) || fill.notionalQuote <= Abs(row.basisQuote))
  }

  /** Which unsigned fills keep a row coherent: those whose nothing is worth nothing, and of the others exactly the
      ones the row survives. */
  lemma UnsignedFillsKeepCoherentExactly(row: LedgerRow, fill: LedgerFill)
    requires Coherent(row) && fill.base >= 0 && fill.notionalQuote >= 0 && Filled(row, fill).Some?
    ensures Coherent(Filled(row, fill).value) <==> Plain(fill) || Survives(row, fill)
  {
    if Plain(fill) {
      FillKeepsCoherent(row, fill);
    }
  }

  /** Into a flat row a payment for nothing leaves a basis with no position. */
  lemma PayingForNothingLeavesABasis()
    ensures Coherent(EMPTY_ROW)
    ensures var after := Filled(EMPTY_ROW, LedgerFill(0, Buy, 0, 5, 0));
            after == Some(LedgerRow(0, -5, 5, 0, None)) && !Coherent(after.value)
  {
    hide TruncDiv;
    assert RolledBasis(0, 0, 0, 5) == 5;
  }

  /** Against an open position one worth more than the basis turns its sign. */
  lemma PayingForNothingTurnsABasis()
    ensures var row := LedgerRow(100, 0, 3, 0, None);
            var after := Filled(row, LedgerFill(0, Sell, 0, 5, 0));
            Coherent(row) && after == Some(LedgerRow(100, 5, -2, 0, None)) && !Coherent(after.value)
  {
    hide TruncDiv;
    assert RolledBasis(100, 3, 0, -5) == -2;
  }

  // ---------------------------------------------------------------- where fills come from

  /** One order's running totals as the venue reports them, and what each report adds (src/hot/exec/order.rs). */
  datatype FillTotals = FillTotals(base: I64, quote: I64)

  datatype FillDelta = FillDelta(base: I64, quote: I64)

  const NO_FILL := FillDelta(0, 0)

  /** A report that adds nothing to the base is a repeat or a late one, and is not looked at further; nothing at all
      where a difference leaves `i64`. */
  function Folded(held: FillTotals, reported: FillTotals): Option<(FillTotals, FillDelta)> {
    var base, quote := reported.base - held.base, reported.quote - held.quote;
    if !FitsI64(base) || !FitsI64(quote) then None
    else if base <= 0 then Some((held, NO_FILL))
    else Some((reported, FillDelta(base, quote)))
  }

  /** The fills that reach the ledger, empty ones filtered out, over a run of reports. */
  function Booked(held: FillTotals, reports: seq<FillTotals>): Option<(FillTotals, seq<FillDelta>)>
    decreases |reports|
  {
    if reports == [] then Some((held, []))
    else
      match Booked(held, reports[..|reports| - 1])
      case None => None
      case Some((before, deltas)) =>
        match Folded(before, reports[|reports| - 1])
        case None => None
        case Some((after, delta)) => Some((after, if delta.base == 0 then deltas else deltas + [delta]))
  }

  class OrderSlot {
    var filled: FillTotals

    method FoldFill(reported: FillTotals) returns (delta: Option<FillDelta>)
      modifies this
      ensures delta.None? <==>
              !FitsI64(reported.base - old(filled).base) || !FitsI64(reported.quote - old(filled).quote)
      ensures delta.None? ==> filled == old(filled)
      ensures delta.Some? ==> Folded(old(filled), reported) == Some((filled, delta.value))
    {
      var base, quote := reported.base - filled.base, reported.quote - filled.quote;
      if !FitsI64(base) || !FitsI64(quote) {
        return None;
      }
      if base <= 0 {
        return Some(NO_FILL);
      }
      filled := reported;
      delta := Some(FillDelta(base, quote));
    }
  }

  function SumBase(deltas: seq<FillDelta>): int {
    if deltas == [] then 0 else SumBase(deltas[..|deltas| - 1]) + deltas[|deltas| - 1].base
  }

  function SumQuote(deltas: seq<FillDelta>): int {
    if deltas == [] then 0 else SumQuote(deltas[..|deltas| - 1]) + deltas[|deltas| - 1].quote
  }

  /** Venue totals that agree on what a larger one is worth: more base never comes with less quote. */
  ghost predicate Cumulative(held: FillTotals, reports: seq<FillTotals>) {
    forall a, b :: (a == held || a in reports) && (b == held || b in reports) && a.base <= b.base ==> a.quote <= b.quote
  }

  /** However reports are repeated or reordered, what is booked adds up to the furthest of them, each amount once;
      every booked fill has a size, so none is a payment for nothing. */
  lemma {:induction false} ReportsAreBookedOnce(held: FillTotals, reports: seq<FillTotals>)
    requires Booked(held, reports).Some?
    ensures var (after, deltas) := Booked(held, reports).value;
            && (after == held || after in reports) && held.base <= after.base
            && (forall report :: report in reports ==> report.base <= after.base)
            && SumBase(deltas) == after.base - held.base && SumQuote(deltas) == after.quote - held.quote
            && (forall delta :: delta in deltas ==> delta.base > 0)
            && (Cumulative(held, reports) ==> forall delta :: delta in deltas ==> delta.quote >= 0)
    decreases |reports|
  {
    hide Cumulative;
    if reports != [] {
      var front, last := reports[..|reports| - 1], reports[|reports| - 1];
      ReportsAreBookedOnce(held, front);
      assert reports == front + [last];
      var (before, earlier) := Booked(held, front).value;
      var (after, delta) := Folded(before, last).value;
      assert (earlier + [delta])[..|earlier|] == earlier;
      if Cumulative(held, reports) {
        LastReportAgrees(held, reports, before);
      }
    }
  }

  lemma LastReportAgrees(held: FillTotals, reports: seq<FillTotals>, before: FillTotals)
    requires reports != [] && Cumulative(held, reports) && (before == held || before in reports[..|reports| - 1])
    ensures Cumulative(held, reports[..|reports| - 1])
    ensures var last := reports[|reports| - 1]; before.base <= last.base ==> before.quote <= last.quote
  {
  }

  /** Totals that are never negative, as a venue's are, are always booked. */
  lemma {:induction false} UnsignedReportsAreBooked(held: FillTotals, reports: seq<FillTotals>)
    requires forall totals :: totals == held || totals in reports ==> totals.base >= 0 && totals.quote >= 0
    ensures Booked(held, reports).Some?
    decreases |reports|
  {
    if reports != [] {
      var front := reports[..|reports| - 1];
      UnsignedReportsAreBooked(held, front);
      ReportsAreBookedOnce(held, front);
      assert reports[|reports| - 1] in reports;
    }
  }

  function FillOf(instrument: nat, side: Side, delta: FillDelta, commission: I64): LedgerFill {
    LedgerFill(instrument, side, delta.base, delta.quote, commission)
  }

  /** So what an order's reports book is plain, and keeps its row coherent. */
  lemma BookedFillsArePlain(held: FillTotals, reports: seq<FillTotals>, i: nat, instrument: nat, side: Side,
                            commission: I64)
    requires Booked(held, reports).Some? && Cumulative(held, reports) && i < |Booked(held, reports).value.1|
    ensures Plain(FillOf(instrument, side, Booked(held, reports).value.1[i], commission))
  {
    ReportsAreBookedOnce(held, reports);
  }

  /** A buy adds its size and pays its value, a sell gives its size and receives its value, and both pay the
      commission. A fill goes through exactly when nothing leaves `i64`; a closing fill's basis never does. */
  lemma FillsGoThroughExactly(row: LedgerRow, fill: LedgerFill)
    requires Coherent(row) && Plain(fill)
    ensures var sign := if fill.side.Buy? then 1 else -1;
            var position := row.positionBase + sign * fill.base;
            var cash := row.cashQuote - sign * fill.notionalQuote - fill.commissionQuote;
            var isOpening := sign * row.positionBase >= 0;
            && (Filled(row, fill).Some? <==>
                && FitsI64(position) && FitsI64(cash)
                && (isOpening ==> FitsI64(row.basisQuote + sign * fill.notionalQuote)))
            && (Filled(row, fill).Some? ==>
                  var after := Filled(row, fill).value;
                  && after.positionBase == position && after.cashQuote == cash
                  && after.realisedAtBoot == row.realisedAtBoot && after.mark == row.mark)
  {
    if Closed(row.positionBase, BaseDelta(fill)) > 0 {
      RolledMagnitude(row.positionBase, row.basisQuote, BaseDelta(fill), CostDelta(fill));
    }
  }

  /** Opening, or adding to, a position realises nothing but the commission. */
  lemma OpeningRealisesOnlyCommission(row: LedgerRow, fill: LedgerFill)
    requires Filled(row, fill).Some? && Closed(row.positionBase, BaseDelta(fill)) == 0
    ensures Realised(Filled(row, fill).value) == Realised(row) - fill.commissionQuote
  {
  }

  /** Closing realises, beyond the commission, the closed share of what the fill was worth less the closed
      share of what the position had cost, both in whole mantissas. */
  lemma ClosingRealisesTheClosedShare(row: LedgerRow, fill: LedgerFill)
    requires Coherent(row) && Plain(fill) && Filled(row, fill).Some? && Closed(row.positionBase, BaseDelta(fill)) > 0
    ensures var closed := Closed(row.positionBase, BaseDelta(fill));
            var worth := Share(fill.notionalQuote, closed, fill.base);
            var cost := Share(Abs(row.basisQuote), closed, Abs(row.positionBase));
            Realised(Filled(row, fill).value)
              == Realised(row) - fill.commissionQuote + if row.positionBase > 0 then worth - cost else cost - worth
  {
    RolledMagnitude(row.positionBase, row.basisQuote, BaseDelta(fill), CostDelta(fill));
  }

  // ---------------------------------------------------------------- conservation

  function TotalBase(fills: seq<LedgerFill>): int {
    if fills == [] then 0 else TotalBase(fills[..|fills| - 1]) + BaseDelta(fills[|fills| - 1])
  }

  /** Everything a run of fills took out of the account, commissions included. */
  function TotalPaid(fills: seq<LedgerFill>): int {
    if fills == [] then 0
    else TotalPaid(fills[..|fills| - 1]) + CostDelta(fills[|fills| - 1]) + fills[|fills| - 1].commissionQuote
  }

  /** Truncation never leaks money: over any run position and cash move by exactly what was traded and paid,
      so a run that starts and ends flat realises exactly what it did not pay, however it was sliced. */
  lemma {:induction false} MoneyIsConserved(row: LedgerRow, fills: seq<LedgerFill>)
    requires Coherent(row) && (forall fill :: fill in fills ==> Plain(fill)) && FilledAll(row, fills).Some?
    ensures var after := FilledAll(row, fills).value;
            && after.positionBase == row.positionBase + TotalBase(fills)
            && after.cashQuote == row.cashQuote - TotalPaid(fills)
            && after.realisedAtBoot == row.realisedAtBoot && after.mark == row.mark
            && (row.positionBase == 0 && TotalBase(fills) == 0 ==>
                  after.basisQuote == 0 && Realised(after) == Realised(row) - TotalPaid(fills))
  {
    RunKeepsCoherent(row, fills);
    if fills != [] {
      MoneyIsConserved(row, fills[..|fills| - 1]);
    }
  }

  // ---------------------------------------------------------------- how far truncation drifts

  /** Exact rational average cost, and the number of rounding fills it has been through since the position
      was last flat (a fill that flips the position starts the count again, at itself). */
  datatype ExactBasis = ExactBasis(cost: real, roundings: nat)

  function ExactShare(x: real, part: nat, whole: int): real
    requires whole > 0
  {
    x * (part as real / whole as real)
  }

  function ExactRolled(position: int, exact: ExactBasis, baseDelta: int, costDelta: int): ExactBasis {
    var closed := Closed(position, baseDelta);
    if closed == 0 then exact.(cost := exact.cost + costDelta as real)
    else if position + baseDelta == 0 then ExactBasis(0.0, 0)
    else if closed == Abs(position) then
      ExactBasis(costDelta as real - ExactShare(costDelta as real, closed, Abs(baseDelta)), 1)
    else
      ExactBasis(exact.cost - ExactShare(exact.cost, closed, Abs(position)), exact.roundings + 1)
  }

  function ExactAll(row: LedgerRow, fills: seq<LedgerFill>): ExactBasis {
    if fills == [] then ExactBasis(row.basisQuote as real, 0)
    else
      var front, last := fills[..|fills| - 1], fills[|fills| - 1];
      ExactRolled(row.positionBase + TotalBase(front), ExactAll(row, front), BaseDelta(last), CostDelta(last))
  }

  /** The kept basis is the exact one or larger, never more than one mantissa per rounding. */
  predicate Tracks(position: int, basis: int, exact: ExactBasis) {
    var drift := if position >= 0 then basis as real - exact.cost else exact.cost - basis as real;
    && 0.0 <= drift <= exact.roundings as real
    && (position > 0 ==> exact.cost >= 0.0) && (position < 0 ==> exact.cost <= 0.0)
    && (position == 0 ==> drift == 0.0)
  }

  /** A truncated share is at most the exact share, and less than one below it. */
  lemma ShareRounds(x: nat, part: nat, whole: int)
    requires whole > 0
    ensures Share(x, part, whole) as real <= ExactShare(x as real, part, whole) < Share(x, part, whole) as real + 1.0
  {
    var q := x * part / whole;
    DivBounds(x * part, whole);
    assert (q * whole) as real == q as real * whole as real;
    assert (q * whole + whole) as real == (q as real + 1.0) * whole as real;
    RealDivBracket((x * part) as real, whole as real, q as real, q as real + 1.0);
    RatioMovesOut(x, part, whole);
  }

  lemma RatioMovesOut(x: nat, part: nat, whole: int)
    requires whole > 0
    ensures ExactShare(x as real, part, whole) == (x * part) as real / whole as real
  {
  }

  lemma ExactShareBounds(x: real, part: nat, whole: int)
    requires 0 < part < whole && x >= 0.0
    ensures 0.0 <= ExactShare(x, part, whole) <= x
  {
  }

  lemma ExactShareIsLinear(x: real, y: real, part: nat, whole: int)
    requires whole > 0
    ensures ExactShare(x - y, part, whole) == ExactShare(x, part, whole) - ExactShare(y, part, whole)
  {
  }

  /** Taking the same share out of both, truncated from the kept basis, adds less than one to the drift. */
  lemma ShareDrifts(kept: nat, exact: real, roundings: nat, part: nat, whole: int)
    requires 0 < part < whole && 0.0 <= kept as real - exact <= roundings as real && exact >= 0.0
    ensures var left, exactLeft := kept - Share(kept, part, whole), exact - ExactShare(exact, part, whole);
            && 0.0 <= left as real - exactLeft <= roundings as real + 1.0
            && exactLeft >= 0.0
  {
    hide Share, ExactShare;
    ShareRounds(kept, part, whole);
    ExactShareBounds(kept as real - exact, part, whole);
    ExactShareBounds(exact, part, whole);
    ExactShareIsLinear(kept as real, exact, part, whole);
  }

  lemma FillTracks(position: int, basis: int, exact: ExactBasis, fill: LedgerFill)
    requires Plain(fill) && Tracks(position, basis, exact)
    requires if position > 0 then basis >= 0 else if position < 0 then basis <= 0 else basis == 0
    ensures Tracks(position + BaseDelta(fill), RolledBasis(position, basis, BaseDelta(fill), CostDelta(fill)),
                   ExactRolled(position, exact, BaseDelta(fill), CostDelta(fill)))
  {
    var closed := Closed(position, BaseDelta(fill));
    if closed > 0 {
      hide Share, ExactShare, TruncDiv, RolledBasis;
      RolledMagnitude(position, basis, BaseDelta(fill), CostDelta(fill));
      if closed < Abs(position) {
        PartialCloseTracks(position, basis, exact, fill);
      } else if closed < Abs(BaseDelta(fill)) {
        FlipTracks(position, basis, exact, fill);
      }
    }
  }

  lemma PartialCloseTracks(position: int, basis: int, exact: ExactBasis, fill: LedgerFill)
    requires Plain(fill) && Tracks(position, basis, exact)
    requires if position > 0 then basis >= 0 else basis <= 0
    requires 0 < Closed(position, BaseDelta(fill)) < Abs(position)
    ensures Tracks(position + BaseDelta(fill), RolledBasis(position, basis, BaseDelta(fill), CostDelta(fill)),
                   ExactRolled(position, exact, BaseDelta(fill), CostDelta(fill)))
  {
    hide Share, ExactShare, TruncDiv, RolledBasis;
    var closed := Closed(position, BaseDelta(fill));
    RolledMagnitude(position, basis, BaseDelta(fill), CostDelta(fill));
    ShareDrifts(Abs(basis), if position > 0 then exact.cost else -exact.cost, exact.roundings, closed, Abs(position));
    ExactShareOfNegative(exact.cost, closed, Abs(position));
  }

  lemma ExactShareOfNegative(x: real, part: nat, whole: int)
    requires whole > 0
    ensures ExactShare(-x, part, whole) == -ExactShare(x, part, whole)
  {
  }

  lemma FlipTracks(position: int, basis: int, exact: ExactBasis, fill: LedgerFill)
    requires Plain(fill) && position != 0
    requires if position > 0 then basis >= 0 else basis <= 0
    requires 0 < Closed(position, BaseDelta(fill)) == Abs(position) < Abs(BaseDelta(fill))
    ensures Tracks(position + BaseDelta(fill), RolledBasis(position, basis, BaseDelta(fill), CostDelta(fill)),
                   ExactRolled(position, exact, BaseDelta(fill), CostDelta(fill)))
  {
    hide Share, ExactShare, TruncDiv, RolledBasis;
    var closed, costDelta := Closed(position, BaseDelta(fill)), CostDelta(fill);
    RolledMagnitude(position, basis, BaseDelta(fill), costDelta);
    ShareDrifts(Abs(costDelta), Abs(costDelta) as real, 0, closed, Abs(BaseDelta(fill)));
    ExactShareOfNegative(costDelta as real, closed, Abs(BaseDelta(fill)));
  }

  /** Over any run of fills the integer basis stays within one mantissa per closing fill, since the position
      was last flat, of exact rational average cost, and never on the far side of it. */
  lemma {:induction false} BasisTracksAverageCost(row: LedgerRow, fills: seq<LedgerFill>)
    requires Coherent(row) && (forall fill :: fill in fills ==> Plain(fill)) && FilledAll(row, fills).Some?
    ensures var after := FilledAll(row, fills).value;
            Tracks(after.positionBase, after.basisQuote, ExactAll(row, fills))
  {
    if fills != [] {
      var front, last := fills[..|fills| - 1], fills[|fills| - 1];
      BasisTracksAverageCost(row, front);
      RunKeepsCoherent(row, front);
      MoneyIsConserved(row, front);
      var before := FilledAll(row, front).value;
      FillTracks(before.positionBase, before.basisQuote, ExactAll(row, front), last);
    }
  }

  // ---------------------------------------------------------------- readings

  /** Price times quantity at the fixed scale, cut toward zero; nothing where it leaves `i64`. */
  function Notional(price: I64, qty: I64): Option<I64> {
    var mantissa := TruncDiv(price * qty, FIXED_SCALE);
    if FitsI64(mantissa) then Some(mantissa) else None
  }

  function ExposureQuote(row: LedgerRow): Option<I64> {
    if row.mark.None? then Some(0) else Notional(row.mark.value, row.positionBase)
  }

  function PnlQuote(row: LedgerRow): Option<I64> {
    match ExposureQuote(row)
    case None => None
    case Some(exposure) => if FitsI64(row.cashQuote + exposure) then Some(row.cashQuote + exposure) else None
  }

  function SessionRealised(row: LedgerRow): Option<I64> {
    if FitsI64(Realised(row)) && FitsI64(Realised(row) - row.realisedAtBoot)
    then Some(Realised(row) - row.realisedAtBoot)
    else None
  }

  /** Read while flat, profit is the realised result, whatever the mark says. */
  lemma FlatPnlIsRealised(row: LedgerRow)
    requires Coherent(row) && row.positionBase == 0
    ensures PnlQuote(row) == Some(Realised(row))
  {
  }

  lemma CutBrackets(a: int)
    ensures var cut := TruncDiv(a, FIXED_SCALE) * FIXED_SCALE;
            && (a >= 0 ==> cut <= a < cut + FIXED_SCALE)
            && (a <= 0 ==> cut - FIXED_SCALE < a <= cut)
  {
  }

  /** A cut quotient of a sum is the sum of the cut quotients, give or take one. */
  lemma CutSum(a: int, b: int)
    ensures var sum := TruncDiv(a, FIXED_SCALE) + TruncDiv(b, FIXED_SCALE);
            sum - 1 <= TruncDiv(a + b, FIXED_SCALE) <= sum + 1
  {
    hide TruncDiv;
    CutBrackets(a);
    CutBrackets(b);
    CutBrackets(a + b);
  }

  /** Profit is what has been realised and, once there is a mark, what the position is worth at it beyond its cost. */
  lemma ProfitIsRealisedAndOpen(row: LedgerRow)
    ensures row.mark.None? ==> PnlQuote(row) == Some(row.cashQuote)
    ensures row.mark.Some? ==>
              var worth := TruncDiv(row.mark.value * row.positionBase, FIXED_SCALE);
              var profit := Realised(row) + (worth - row.basisQuote);
              PnlQuote(row) == if FitsI64(worth) && FitsI64(profit) then Some(profit) else None
  {
    hide TruncDiv;
  }

  /** Trading at the mark makes nothing: beyond the commission, profit moves by no more than the rounding of one
      product. */
  lemma FillsAtTheMarkMakeNothing(row: LedgerRow, fill: LedgerFill)
    requires row.mark.Some? && fill.base >= 0 && fill.notionalQuote == TruncDiv(row.mark.value * fill.base, FIXED_SCALE)
    requires Filled(row, fill).Some? && PnlQuote(row).Some? && PnlQuote(Filled(row, fill).value).Some?
    ensures var moved := PnlQuote(Filled(row, fill).value).value - PnlQuote(row).value + fill.commissionQuote;
            -1 <= moved <= 1
  {
    hide TruncDiv, RolledBasis, FitsI64;
    var mark: int, base: int, position: int := row.mark.value, fill.base, row.positionBase;
    var after := Filled(row, fill).value;
    assert PnlQuote(row).value == row.cashQuote + TruncDiv(mark * position, FIXED_SCALE);
    assert PnlQuote(after).value == after.cashQuote + TruncDiv(mark * after.positionBase, FIXED_SCALE);
    assert after.cashQuote == row.cashQuote - CostDelta(fill) - fill.commissionQuote;
    hide PnlQuote, Filled;
    if fill.side.Buy? {
      SplitProduct(mark, position, base);
      CutSum(mark * position, mark * base);
    } else {
      SplitProduct(mark, position - base, base);
      CutSum(mark * (position - base), mark * base);
    }
  }

  lemma SplitProduct(a: int, b: int, c: int)
    ensures a * (b + c) == a * b + a * c
  {
  }

  /** A session's result is what its own fills realised, whatever the row was restored with; of fills that start and
      end flat, all that was taken in and paid. */
  lemma SessionsRealiseTheirFills(row: LedgerRow, fills: seq<LedgerFill>)
    requires Coherent(row) && (forall fill :: fill in fills ==> Plain(fill)) && FilledAll(row, fills).Some?
    requires row.realisedAtBoot == Realised(row)
    ensures var after := FilledAll(row, fills).value;
            var result := Realised(after) - Realised(row);
            && (SessionRealised(after).Some? <==> FitsI64(Realised(after)) && FitsI64(result))
            && (SessionRealised(after).Some? ==> SessionRealised(after).value == result)
            && (row.positionBase == 0 && after.positionBase == 0 ==> result == -TotalPaid(fills))
  {
    MoneyIsConserved(row, fills);
    RunKeepsCoherent(row, fills);
    hide FilledAll;
  }

  // ---------------------------------------------------------------- the ledger itself

  /** The last exposure that names a row is the one it boots from. */
  function LastNaming(restored: seq<InstrumentExposure>, row: nat): Option<InstrumentExposure> {
    if restored == [] then None
    else if restored[|restored| - 1].instrument == row then Some(restored[|restored| - 1])
    else LastNaming(restored[..|restored| - 1], row)
  }

  lemma {:induction false} NothingAfterTheLast(restored: seq<InstrumentExposure>, row: nat)
    ensures var named := LastNaming(restored, row);
            && (named.None? <==> forall k :: 0 <= k < |restored| ==> restored[k].instrument != row)
            && (named.Some? ==>
                  exists k :: 0 <= k < |restored| && restored[k] == named.value && named.value.instrument == row
                              && forall later :: k < later < |restored| ==> restored[later].instrument != row)
    decreases |restored|
  {
    if restored != [] && restored[|restored| - 1].instrument != row {
      NothingAfterTheLast(restored[..|restored| - 1], row);
    }
  }

  lemma LastNamingSnoc(restored: seq<InstrumentExposure>, k: nat, row: nat)
    requires k < |restored|
    ensures LastNaming(restored[..k + 1], row) ==
            if restored[k].instrument == row then Some(restored[k]) else LastNaming(restored[..k], row)
  {
    var longer := restored[..k + 1];
    assert longer[..|longer| - 1] == restored[..k];
  }

  ghost predicate BootedFrom(row: LedgerRow, named: Option<InstrumentExposure>) {
    match named
    case None => row == EMPTY_ROW
    case Some(exposure) =>
      && row.positionBase == exposure.positionBase && row.cashQuote == exposure.cashQuote
      && row.basisQuote == exposure.basisQuote && row.realisedAtBoot == exposure.cashQuote + exposure.basisQuote
      && row.mark.None?
  }

  lemma BootedRowsAreFresh(row: LedgerRow, named: Option<InstrumentExposure>)
    requires BootedFrom(row, named)
    ensures row.mark.None? && SessionRealised(row) == Some(0)
  {
  }

  /** Rows are indexed by instrument. */
  class PositionLedger {
    const rows: array<LedgerRow>

    constructor (instrumentCount: nat)
      ensures fresh(rows) && rows.Length == instrumentCount && forall i :: 0 <= i < rows.Length ==> rows[i] == EMPTY_ROW
    {
      rows := new LedgerRow[instrumentCount](_ => EMPTY_ROW);
    }

    /** Boots rows from what was restored, skipping instruments that no longer exist. `false` is the panic on
        a restored result that does not fit. Every restored row boots having realised nothing this session. */
    method Restore(restored: seq<InstrumentExposure>) returns (ok: bool)
      requires forall i :: 0 <= i < rows.Length ==> rows[i] == EMPTY_ROW
      modifies rows
      ensures ok <==> forall e :: e in restored && e.instrument < rows.Length ==> FitsI64(e.cashQuote + e.basisQuote)
      ensures ok ==> forall i :: 0 <= i < rows.Length ==>
                BootedFrom(rows[i], LastNaming(restored, i)) && SessionRealised(rows[i]) == Some(0)
    {
      hide SessionRealised, FitsI64;
      for k := 0 to |restored|
        invariant forall j :: 0 <= j < k && restored[j].instrument < rows.Length ==>
                    FitsI64(restored[j].cashQuote + restored[j].basisQuote)
        invariant forall i :: 0 <= i < rows.Length ==> BootedFrom(rows[i], LastNaming(restored[..k], i))
      {
        forall i | 0 <= i < rows.Length
          ensures LastNaming(restored[..k + 1], i) ==
                  if restored[k].instrument == i then Some(restored[k]) else LastNaming(restored[..k], i)
        {
          LastNamingSnoc(restored, k, i);
        }
        if restored[k].instrument < rows.Length {
          BootedRowsAreFresh(rows[restored[k].instrument], LastNaming(restored[..k], restored[k].instrument));
        }
        var booted := RestoreOne(restored[k]);
        if !booted {
          assert restored[k] in restored;
          return false;
        }
      }
      assert restored[..|restored|] == restored;
      forall i | 0 <= i < rows.Length
        ensures SessionRealised(rows[i]) == Some(0)
      {
        BootedRowsAreFresh(rows[i], LastNaming(restored, i));
      }
      ok := true;
    }

    method RestoreOne(exposure: InstrumentExposure) returns (ok: bool)
      requires exposure.instrument < rows.Length ==> rows[exposure.instrument].mark.None?
      modifies rows
      ensures ok <==> (exposure.instrument < rows.Length ==> FitsI64(exposure.cashQuote + exposure.basisQuote))
      ensures forall i :: 0 <= i < rows.Length && i != exposure.instrument ==> rows[i] == old(rows[i])
      ensures ok && exposure.instrument < rows.Length ==> BootedFrom(rows[exposure.instrument], Some(exposure))
    {
      if exposure.instrument >= rows.Length {
        return true;
      }
      var realised := exposure.cashQuote + exposure.basisQuote;
      if !FitsI64(realised) {
        return false;
      }
      rows[exposure.instrument] := rows[exposure.instrument].(
        positionBase := exposure.positionBase, cashQuote := exposure.cashQuote,
        basisQuote := exposure.basisQuote, realisedAtBoot := realised);
      ok := true;
    }

    /** Folds one fill into its row; `false` is the panic on a value that leaves `i64`. */
    method ApplyFill(fill: LedgerFill) returns (ok: bool)
      requires fill.instrument < rows.Length && fill.base >= 0 && fill.notionalQuote >= 0
      modifies rows
      ensures ok <==> Filled(old(rows[fill.instrument]), fill).Some?
      ensures ok ==> rows[..] == old(rows[..])[fill.instrument := Filled(old(rows[fill.instrument]), fill).value]
      ensures ok && Plain(fill) && Coherent(old(rows[fill.instrument])) ==> Coherent(rows[fill.instrument])
    {
      var notional, qty := fill.notionalQuote, fill.base;
      var baseDelta, costDelta := qty, notional;
      if fill.side == Sell {
        baseDelta, costDelta := -qty, -notional;
      }
      var row := rows[fill.instrument];
      var basis := RollBasis(row, baseDelta, costDelta);
      var position := row.positionBase + baseDelta;
      var cash := row.cashQuote - costDelta - fill.commissionQuote;
      if !FitsI64(basis) || !FitsI64(position) || !FitsI64(cash) {
        return false;
      }
      if Coherent(row) && Plain(fill) {
        FillKeepsCoherent(row, fill);
      }
      rows[fill.instrument] := row.(positionBase := position, cashQuote := cash, basisQuote := basis);
      ok := true;
    }

    static method RollBasis(row: LedgerRow, baseDelta: int, costDelta: int) returns (basis: int)
      ensures basis == RolledBasis(row.positionBase, row.basisQuote, baseDelta, costDelta)
    {
      var position := row.positionBase;
      var closed := 0;
      if Signum(position) == -Signum(baseDelta) {
        closed := Min(Abs(position), Abs(baseDelta));
      }
      if closed == 0 {
        return row.basisQuote + costDelta;
      }
      var released := TruncDiv(row.basisQuote * closed, Abs(position));
      var openedCost := costDelta - TruncDiv(costDelta * closed, Abs(baseDelta));
      basis := row.basisQuote - released + openedCost;
    }

    method SetMark(instrument: nat, mark: I64)
      requires instrument < rows.Length
      modifies rows
      ensures rows[..] == old(rows[..])[instrument := old(rows[instrument]).(mark := Some(mark))]
    {
      rows[instrument] := rows[instrument].(mark := Some(mark));
    }

    method ResetInstrument(instrument: nat)
      requires instrument < rows.Length
      modifies rows
      ensures rows[..] == old(rows[..])[instrument := EMPTY_ROW]
    {
      rows[instrument] := EMPTY_ROW;
    }
  }
}
