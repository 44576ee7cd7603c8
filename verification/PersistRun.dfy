/** The persistence lane over whole runs: the hot thread offers rows and asks for seals, the writer thread
    pops, seals on its timer and takes rotations, in any interleaving. */
module PersistRun {
  import opened Common
  import opened Table
  import opened Persist

  datatype Step =
    | Offer(table: TableKind, row: Row)
    | AskSeal
    | Retry
    | Pop
    | TimerSeal
    | Rotation(row: Row)

  datatype Config = Config(capacity: nat, named: set<TableKind>)

  /** `accepted` is every record the ring ever took; `consumed` of them have been popped. `requests` holds,
      for each seal asked for, how many records had been accepted by then. */
  datatype Lane = Lane(sink: SinkView, writer: WriterView, accepted: seq<Record>, consumed: nat,
                       offered: nat, requests: set<nat>)

  function NewLane(config: Config): Lane {
    Lane(NEW_SINK, NewWriter(config.named), [], 0, 0, {})
  }

  /** The sink moves; whatever it added to the ring is now accepted. */
  function Accept(lane: Lane, sink: SinkView): Lane {
    var before := |lane.sink.ring|;
    lane.(sink := sink, accepted := lane.accepted + if before <= |sink.ring| then sink.ring[before..] else [])
  }

  function Next(config: Config, lane: Lane, step: Step): Lane {
    match step
    case Offer(table, row) =>
      Accept(lane, PushRecord(config.capacity, lane.sink, RowRecord(table, row))).(offered := lane.offered + 1)
    case AskSeal =>
      Accept(lane, RequestSeal(config.capacity, lane.sink)).(requests := lane.requests + {|lane.accepted|})
    case Retry => Accept(lane, RetrySeal(config.capacity, lane.sink))
    case Pop =>
      if lane.sink.ring == [] then lane
      else lane.(sink := lane.sink.(ring := lane.sink.ring[1..]), consumed := lane.consumed + 1,
                 writer := Route(lane.writer, lane.sink.ring[0]))
    case TimerSeal => lane.(writer := SealTables(lane.writer))
    case Rotation(row) => lane.(writer := lane.writer.(rotations := PushRow(lane.writer.rotations, row)))
  }

  function Run(config: Config, steps: seq<Step>): Lane
    decreases |steps|
  {
    if steps == [] then NewLane(config)
    else Next(config, Run(config, steps[..|steps| - 1]), steps[|steps| - 1])
  }

  // ---------------------------------------------------------------- what a run promises

  function RowsOf(table: TableKind, records: seq<Record>): seq<Row>
    decreases |records|
  {
    if records == [] then []
    else
      var last := records[|records| - 1];
      RowsOf(table, records[..|records| - 1]) + if last.RowRecord? && last.table == table then [last.row] else []
  }

  function CountRows(records: seq<Record>): nat
    decreases |records|
  {
    if records == [] then 0
    else CountRows(records[..|records| - 1]) + if records[|records| - 1].RowRecord? then 1 else 0
  }

  /** Some leading run of closed files holds exactly these rows: none of them is elsewhere, and none of
      those files holds anything else. */
  ghost predicate ClosedExactly(v: TableView, rows: seq<Row>) {
    exists c :: 0 <= c <= |v.closed| && FileRows(v.closed[..c]) == rows
  }

  /** One table after the writer has consumed so many of the accepted records. */
  ghost predicate TableKept(accepted: seq<Record>, consumed: nat, t: TableKind, v: TableView)
    requires consumed <= |accepted|
  {
    && Tidy(v)
    && AllRows(v) == RowsOf(t, accepted[..consumed])
    && (forall k :: 0 <= k < consumed && accepted[k].SealAll? ==> ClosedExactly(v, RowsOf(t, accepted[..k])))
  }

  ghost predicate LaneKept(config: Config, lane: Lane) {
    && lane.consumed <= |lane.accepted|
    && lane.sink.ring == lane.accepted[lane.consumed..]
    && |lane.sink.ring| <= config.capacity
    && lane.writer.tables.Keys == config.named
    && Tidy(lane.writer.rotations)
    && (forall t :: t in config.named ==> TableKept(lane.accepted, lane.consumed, t, lane.writer.tables[t]))
    && RequestsKept(lane)
    && CountRows(lane.accepted) + lane.sink.dropped == lane.offered
  }

  // ---------------------------------------------------------------- the table side of a step

  lemma ClosedStaysClosed(v: TableView, v': TableView, rows: seq<Row>)
    requires ClosedExactly(v, rows) && v.closed <= v'.closed
    ensures ClosedExactly(v', rows)
  {
    var c :| 0 <= c <= |v.closed| && FileRows(v.closed[..c]) == rows;
    assert v'.closed[..c] == v.closed[..c];
  }

  lemma RowsOfSnoc(t: TableKind, records: seq<Record>, k: nat)
    requires k < |records|
    ensures RowsOf(t, records[..k + 1])
         == RowsOf(t, records[..k]) + if records[k].RowRecord? && records[k].table == t then [records[k].row] else []
  {
    assert records[..k + 1][..k] == records[..k];
  }

  /** A table whose rows and closed files only move forward keeps everything already sealed. */
  lemma TableAdvances(accepted: seq<Record>, consumed: nat, t: TableKind, v: TableView, v': TableView)
    requires consumed < |accepted| && TableKept(accepted, consumed, t, v)
    requires Tidy(v') && v.closed <= v'.closed
    requires AllRows(v') == RowsOf(t, accepted[..consumed + 1])
    requires accepted[consumed].SealAll? ==> FileRows(v'.closed) == AllRows(v) == AllRows(v')
    ensures TableKept(accepted, consumed + 1, t, v')
  {
    hide Tidy, AllRows, ClosedExactly, RowsOf;
    forall k | 0 <= k < consumed + 1 && accepted[k].SealAll?
      ensures ClosedExactly(v', RowsOf(t, accepted[..k]))
    {
      if k < consumed {
        ClosedStaysClosed(v, v', RowsOf(t, accepted[..k]));
      } else {
        AllClosed(v', RowsOf(t, accepted[..k]));
      }
    }
  }

  lemma AllClosed(v: TableView, rows: seq<Row>)
    requires FileRows(v.closed) == rows
    ensures ClosedExactly(v, rows)
  {
    assert v.closed[..|v.closed|] == v.closed;
  }

  lemma RouteAdvancesTable(w: WriterView, record: Record, t: TableKind)
    requires t in w.tables && Tidy(w.tables[t])
    ensures var v, v' := w.tables[t], Route(w, record).tables[t];
            && Tidy(v') && v.closed <= v'.closed
            && AllRows(v') == AllRows(v) + (if record.RowRecord? && record.table == t then [record.row] else [])
            && (record.SealAll? ==> FileRows(v'.closed) == AllRows(v'))
  {
    var v := w.tables[t];
    if record.SealAll? {
      SealKeepsRows(v);
      assert AllRows(v) + [] == AllRows(v);
    } else if record.table == t {
      PushAppends(v, record.row);
    } else {
      assert AllRows(v) + [] == AllRows(v);
    }
  }

  lemma PopKeepsTable(accepted: seq<Record>, consumed: nat, w: WriterView, t: TableKind)
    requires consumed < |accepted| && t in w.tables && TableKept(accepted, consumed, t, w.tables[t])
    ensures var w' := Route(w, accepted[consumed]);
            t in w'.tables && TableKept(accepted, consumed + 1, t, w'.tables[t])
  {
    hide Tidy, AllRows, ClosedExactly, RowsOf, FileRows;
    RouteAdvancesTable(w, accepted[consumed], t);
    RowsOfSnoc(t, accepted, consumed);
    assert AllRows(w.tables[t]) + [] == AllRows(w.tables[t]);
    TableAdvances(accepted, consumed, t, w.tables[t], Route(w, accepted[consumed]).tables[t]);
  }

  lemma RequestsDependOnSinkOnly(lane: Lane, lane': Lane)
    requires RequestsKept(lane) && lane'.requests == lane.requests && lane'.accepted == lane.accepted
    requires lane'.sink.isSealPending == lane.sink.isSealPending
    ensures RequestsKept(lane')
  {
  }

  lemma PopKeeps(config: Config, lane: Lane)
    requires LaneKept(config, lane)
    ensures LaneKept(config, Next(config, lane, Pop))
  {
    hide Tidy, AllRows, ClosedExactly, RowsOf, RequestsKept, TableKept, CountRows;
    if lane.sink.ring != [] {
      var lane' := Next(config, lane, Pop);
      assert RequestsKept(lane') by { RequestsDependOnSinkOnly(lane, lane'); }
      SealKeepsRows(lane.writer.rotations);
      forall t | t in config.named
        ensures TableKept(lane'.accepted, lane'.consumed, t, lane'.writer.tables[t])
      {
        PopKeepsTable(lane.accepted, lane.consumed, lane.writer, t);
      }
    }
  }

  lemma TimerSealKeeps(config: Config, lane: Lane)
    requires LaneKept(config, lane)
    ensures LaneKept(config, Next(config, lane, TimerSeal))
  {
    hide TableKept, Seal, AllRows;
    var lane' := Next(config, lane, TimerSeal);
    SealKeepsRows(lane.writer.rotations);
    forall t | t in config.named
      ensures TableKept(lane'.accepted, lane'.consumed, t, lane'.writer.tables[t])
    {
      assert TableKept(lane.accepted, lane.consumed, t, lane.writer.tables[t]);
      SealKeepsTable(lane.accepted, lane.consumed, t, lane.writer.tables[t]);
    }
  }

  /** Closing the open file early breaks nothing a table promised. */
  lemma SealKeepsTable(accepted: seq<Record>, consumed: nat, t: TableKind, v: TableView)
    requires consumed <= |accepted| && TableKept(accepted, consumed, t, v)
    ensures TableKept(accepted, consumed, t, Seal(v))
  {
    SealKeepsRows(v);
    hide Seal, ClosedExactly, Tidy;
    forall k | 0 <= k < consumed && accepted[k].SealAll?
      ensures ClosedExactly(Seal(v), RowsOf(t, accepted[..k]))
    {
      ClosedStaysClosed(v, Seal(v), RowsOf(t, accepted[..k]));
    }
  }

  // ---------------------------------------------------------------- the sink side of a step

  lemma CountRowsSnoc(records: seq<Record>, record: Record)
    ensures CountRows(records + [record]) == CountRows(records) + if record.RowRecord? then 1 else 0
  {
  }

  ghost predicate RequestsKept(lane: Lane) {
    forall k :: k in lane.requests ==>
      || (k == |lane.accepted| && lane.sink.isSealPending)
      || (k < |lane.accepted| && lane.accepted[k].SealAll?)
  }

  /** A move of the sink leaves everything the writer has done as it was. */
  lemma SinkMoveKeeps(config: Config, lane: Lane, lane': Lane)
    requires LaneKept(config, lane)
    requires lane'.writer == lane.writer && lane'.consumed == lane.consumed
    requires lane.accepted <= lane'.accepted
    requires lane'.sink.ring == lane'.accepted[lane'.consumed..] && |lane'.sink.ring| <= config.capacity
    requires RequestsKept(lane') && CountRows(lane'.accepted) + lane'.sink.dropped == lane'.offered
    ensures LaneKept(config, lane')
  {
    hide Tidy, AllRows, ClosedExactly, RowsOf, CountRows;
    forall t | t in config.named
      ensures TableKept(lane'.accepted, lane'.consumed, t, lane'.writer.tables[t])
    {
      assert TableKept(lane.accepted, lane.consumed, t, lane.writer.tables[t]);
      assert forall k :: 0 <= k <= lane.consumed ==> lane'.accepted[..k] == lane.accepted[..k];
    }
  }

  lemma FlushKeeps(config: Config, lane: Lane)
    requires LaneKept(config, lane) && lane.sink.isSealPending
    ensures LaneKept(config, Accept(lane, FlushSeal(config.capacity, lane.sink)))
  {
    hide Tidy, TableKept, CountRows;
    var lane' := Accept(lane, FlushSeal(config.capacity, lane.sink));
    if |lane.sink.ring| < config.capacity {
      assert lane'.accepted == lane.accepted + [SealAll];
      CountRowsSnoc(lane.accepted, SealAll);
    } else {
      assert lane'.accepted == lane.accepted;
    }
    SinkMoveKeeps(config, lane, lane');
  }

  lemma RowKeeps(config: Config, lane: Lane, record: Record)
    requires LaneKept(config, lane) && !lane.sink.isSealPending && record.RowRecord?
    ensures LaneKept(config, Accept(lane, PushRecord(config.capacity, lane.sink, record)).(offered := lane.offered + 1))
  {
    hide Tidy, TableKept, CountRows;
    var lane' := Accept(lane, PushRecord(config.capacity, lane.sink, record)).(offered := lane.offered + 1);
    if |lane.sink.ring| < config.capacity {
      assert lane'.accepted == lane.accepted + [record];
      CountRowsSnoc(lane.accepted, record);
    } else {
      assert lane'.accepted == lane.accepted;
    }
    SinkMoveKeeps(config, lane, lane');
  }

  lemma AcceptInTwo(lane: Lane, middle: SinkView, last: SinkView)
    requires lane.sink.ring <= middle.ring <= last.ring
    ensures Accept(lane, last) == Accept(Accept(lane, middle), last)
  {
  }

  lemma OfferKeeps(config: Config, lane: Lane, table: TableKind, row: Row)
    requires LaneKept(config, lane)
    ensures LaneKept(config, Next(config, lane, Offer(table, row)))
  {
    hide Tidy, TableKept, CountRows, RequestsKept;
    var record := RowRecord(table, row);
    var sink' := PushRecord(config.capacity, lane.sink, record);
    if !lane.sink.isSealPending {
      RowKeeps(config, lane, record);
    } else if |lane.sink.ring| < config.capacity {
      var flushed := FlushSeal(config.capacity, lane.sink);
      FlushKeeps(config, lane);
      RowKeeps(config, Accept(lane, flushed), record);
      assert sink' == PushRecord(config.capacity, flushed, record);
      AcceptInTwo(lane, flushed, sink');
    } else {
      var lane' := Next(config, lane, Offer(table, row));
      assert lane'.accepted == lane.accepted;
      RequestsDependOnSinkOnly(lane, lane');
      SinkMoveKeeps(config, lane, lane');
    }
  }

  lemma AskSealKeeps(config: Config, lane: Lane)
    requires LaneKept(config, lane)
    ensures LaneKept(config, Next(config, lane, AskSeal))
  {
    var asked := lane.(sink := lane.sink.(isSealPending := true), requests := lane.requests + {|lane.accepted|});
    SinkMoveKeeps(config, lane, asked);
    FlushKeeps(config, asked);
  }

  lemma StepKeeps(config: Config, lane: Lane, step: Step)
    requires LaneKept(config, lane)
    ensures LaneKept(config, Next(config, lane, step))
  {
    match step
    case Offer(table, row) => OfferKeeps(config, lane, table, row);
    case AskSeal => AskSealKeeps(config, lane);
    case Retry =>
      if lane.sink.isSealPending {
        FlushKeeps(config, lane);
      } else {
        assert lane.accepted + [] == lane.accepted;
        assert Next(config, lane, Retry) == lane;
      }
    case Pop => PopKeeps(config, lane);
    case TimerSeal => TimerSealKeeps(config, lane);
    case Rotation(row) =>
      PushAppends(lane.writer.rotations, row);
      forall t | t in config.named
        ensures TableKept(Next(config, lane, step).accepted, Next(config, lane, step).consumed, t,
                          lane.writer.tables[t])
      {
        assert TableKept(lane.accepted, lane.consumed, t, lane.writer.tables[t]);
      }
  }

  lemma {:induction false} EveryRunIsKept(config: Config, steps: seq<Step>)
    ensures LaneKept(config, Run(config, steps))
    decreases |steps|
  {
    if steps == [] {
      var lane := Run(config, steps);
      assert forall t :: t in config.named ==> TableKept(lane.accepted, lane.consumed, t, lane.writer.tables[t]);
    } else {
      EveryRunIsKept(config, steps[..|steps| - 1]);
      StepKeeps(config, Run(config, steps[..|steps| - 1]), steps[|steps| - 1]);
    }
  }

  // ---------------------------------------------------------------- what becomes of what the sink is given

  /** What a step did to the ring: these records were accepted behind everything before, and nothing else moved. */
  predicate Accepts(before: Lane, after: Lane, records: seq<Record>) {
    && after.accepted == before.accepted + records && after.sink.ring == before.sink.ring + records
    && after.writer == before.writer && after.consumed == before.consumed
  }

  /** A row is dropped only by a full ring. With no seal latched and room, it is accepted; with a seal latched the
      seal goes first, and takes the last place from the row if there is only one. */
  lemma OfferedRowsAreAcceptedWhileThereIsRoom(config: Config, lane: Lane, table: TableKind, row: Row)
    requires |lane.sink.ring| <= config.capacity
    ensures var lane' := Next(config, lane, Offer(table, row));
            var room := config.capacity - |lane.sink.ring|;
            var rows, seals := [RowRecord(table, row)], if lane.sink.isSealPending then [SealAll] else [];
            var enters := |seals| < room;
            && Accepts(lane, lane', if room == 0 then [] else if enters then seals + rows else seals)
            && lane'.sink.dropped == lane.sink.dropped + (if enters then 0 else 1)
            && lane'.sink.isSealPending == (lane.sink.isSealPending && room == 0)
            && (lane'.sink.dropped > lane.sink.dropped ==> |lane'.sink.ring| == config.capacity)
            && lane'.offered == lane.offered + 1 && lane'.requests == lane.requests
  {
    assert lane.accepted + [] == lane.accepted && lane.sink.ring + [] == lane.sink.ring;
    assert lane.sink.ring + [SealAll] + [RowRecord(table, row)] == lane.sink.ring + [SealAll, RowRecord(table, row)];
  }

  /** A seal asked for is accepted at once while there is room, and latched otherwise. */
  lemma SealsAreAcceptedWhileThereIsRoom(config: Config, lane: Lane)
    requires |lane.sink.ring| <= config.capacity
    ensures var lane', hasRoom := Next(config, lane, AskSeal), |lane.sink.ring| < config.capacity;
            && Accepts(lane, lane', if hasRoom then [SealAll] else [])
            && (lane'.sink.isSealPending <==> !hasRoom) && lane'.sink.dropped == lane.sink.dropped
  {
    assert lane.accepted + [] == lane.accepted && lane.sink.ring + [] == lane.sink.ring;
  }

  /** A latched seal is accepted by the first retry that finds room; a retry does nothing else. */
  lemma RetriesLandTheSeal(config: Config, lane: Lane)
    requires |lane.sink.ring| <= config.capacity
    ensures var lane' := Next(config, lane, Retry);
            var lands := lane.sink.isSealPending && |lane.sink.ring| < config.capacity;
            && Accepts(lane, lane', if lands then [SealAll] else [])
            && (lane'.sink.isSealPending <==> lane.sink.isSealPending && !lands)
            && lane'.sink.dropped == lane.sink.dropped && lane'.requests == lane.requests
  {
    assert lane.accepted + [] == lane.accepted && lane.sink.ring + [] == lane.sink.ring;
  }

  /** So however full the ring was when a seal was asked for, one pop and one retry later it is on its way. */
  lemma OnePopLandsASeal(config: Config, steps: seq<Step>)
    requires config.capacity > 0
    ensures !Run(config, steps + [Pop] + [Retry]).sink.isSealPending
  {
    EveryRunIsKept(config, steps);
    LastStep(config, steps, Pop);
    LastStep(config, steps + [Pop], Retry);
    var popped := Run(config, steps + [Pop]);
    hide Run, LaneKept, Route;
    assert |popped.sink.ring| < config.capacity;
    RetriesLandTheSeal(config, popped);
  }

  /** Consumed rows for tables without a name are counted, each once. */
  function UnnamedRows(named: set<TableKind>, records: seq<Record>): nat
    decreases |records|
  {
    if records == [] then 0
    else
      var last := records[|records| - 1];
      UnnamedRows(named, records[..|records| - 1]) + if last.RowRecord? && last.table !in named then 1 else 0
  }

  lemma {:induction false} UnnamedRowsAreCounted(config: Config, steps: seq<Step>)
    ensures var lane := Run(config, steps);
            lane.consumed <= |lane.accepted|
            && lane.writer.unnamedRows == UnnamedRows(config.named, lane.accepted[..lane.consumed])
    decreases |steps|
  {
    hide LaneKept, Next;
    EveryRunIsKept(config, steps);
    ConsumedIsAccepted(config, Run(config, steps));
    if steps != [] {
      var front := steps[..|steps| - 1];
      UnnamedRowsAreCounted(config, front);
      EveryRunIsKept(config, front);
      UnnamedStep(config, Run(config, front), steps[|steps| - 1]);
    }
  }

  lemma ConsumedIsAccepted(config: Config, lane: Lane)
    requires LaneKept(config, lane)
    ensures lane.consumed <= |lane.accepted| && lane.sink.ring == lane.accepted[lane.consumed..]
    ensures lane.writer.tables.Keys == config.named
  {
  }

  lemma UnnamedStep(config: Config, lane: Lane, step: Step)
    requires LaneKept(config, lane) && LaneKept(config, Next(config, lane, step))
    requires lane.consumed <= |lane.accepted|
    requires lane.writer.unnamedRows == UnnamedRows(config.named, lane.accepted[..lane.consumed])
    ensures var lane' := Next(config, lane, step);
            && lane'.consumed <= |lane'.accepted|
            && lane'.writer.unnamedRows == UnnamedRows(config.named, lane'.accepted[..lane'.consumed])
  {
    hide LaneKept, PushRow, Seal, PushRecord, RequestSeal, RetrySeal;
    ConsumedIsAccepted(config, lane);
    ConsumedIsAccepted(config, Next(config, lane, step));
    var n, accepted' := lane.consumed, Next(config, lane, step).accepted;
    assert accepted'[..n] == lane.accepted[..n];
    if step.Pop? && lane.sink.ring != [] {
      assert lane.accepted[..n + 1][..n] == lane.accepted[..n];
    }
  }

  // ---------------------------------------------------------------- the theorems

  lemma {:induction false} RowsOfConcat(t: TableKind, a: seq<Record>, b: seq<Record>)
    ensures RowsOf(t, a + b) == RowsOf(t, a) + RowsOf(t, b)
    decreases |b|
  {
    if b == [] {
      assert a + b == a;
    } else {
      assert (a + b)[..|a + b| - 1] == a + b[..|b| - 1];
      RowsOfConcat(t, a, b[..|b| - 1]);
    }
  }

  lemma FilesThenRing(lane: Lane, t: TableKind, v: TableView)
    requires lane.consumed <= |lane.accepted|
    requires AllRows(v) == RowsOf(t, lane.accepted[..lane.consumed])
    requires lane.sink.ring == lane.accepted[lane.consumed..]
    ensures AllRows(v) + RowsOf(t, lane.sink.ring) == RowsOf(t, lane.accepted)
  {
    RowsOfConcat(t, lane.accepted[..lane.consumed], lane.accepted[lane.consumed..]);
    assert lane.accepted == lane.accepted[..lane.consumed] + lane.accepted[lane.consumed..];
  }

  /** Nothing accepted for a named table is lost, repeated or reordered: what its files hold, then what the
      ring still holds, is exactly what was accepted. No file exceeds the cap, and every row offered was
      either accepted or counted as dropped. */
  lemma AcceptedRowsLandOnce(config: Config, steps: seq<Step>, t: TableKind)
    requires t in config.named
    ensures var lane := Run(config, steps);
            && t in lane.writer.tables
            && AllRows(lane.writer.tables[t]) + RowsOf(t, lane.sink.ring) == RowsOf(t, lane.accepted)
            && (forall file :: file in lane.writer.tables[t].closed ==> 0 < |file.rows| <= ROWS_PER_SEAL)
            && RowsSinceSeal(lane.writer.tables[t]) < ROWS_PER_SEAL
            && CountRows(lane.accepted) + lane.sink.dropped == lane.offered
  {
    EveryRunIsKept(config, steps);
    var lane := Run(config, steps);
    assert TableKept(lane.accepted, lane.consumed, t, lane.writer.tables[t]);
    FilesThenRing(lane, t, lane.writer.tables[t]);
  }

  /** A seal is never lost, however full the ring was when it was asked for: it is still latched with
      nothing accepted behind it, or it sits in the stream at exactly the point where it was asked for; and
      once that point has been consumed, closed files hold exactly the rows accepted before the request. */
  lemma SealsAreNeverLost(config: Config, steps: seq<Step>, t: TableKind, request: nat)
    requires t in config.named && request in Run(config, steps).requests
    ensures var lane := Run(config, steps);
            && (|| (request == |lane.accepted| && lane.sink.isSealPending)
                || (request < |lane.accepted| && lane.accepted[request].SealAll?))
            && t in lane.writer.tables
            && (request < lane.consumed ==>
                  ClosedExactly(lane.writer.tables[t], RowsOf(t, lane.accepted[..request])))
  {
    EveryRunIsKept(config, steps);
    var lane := Run(config, steps);
    assert TableKept(lane.accepted, lane.consumed, t, lane.writer.tables[t]);
  }

  lemma SealedLane(config: Config, lane: Lane, t: TableKind)
    requires LaneKept(config, lane) && t in config.named && lane.sink.ring == []
    ensures t in lane.writer.tables
    ensures var v := Seal(lane.writer.tables[t]);
            v.open.None? && v.pending == [] && FileRows(v.closed) == RowsOf(t, lane.accepted)
  {
    assert TableKept(lane.accepted, lane.consumed, t, lane.writer.tables[t]);
    FilesThenRing(lane, t, lane.writer.tables[t]);
    SealKeepsRows(lane.writer.tables[t]);
    assert AllRows(lane.writer.tables[t]) + [] == AllRows(lane.writer.tables[t]);
  }

  lemma SealTablesAt(w: WriterView, t: TableKind)
    requires t in w.tables
    ensures t in SealTables(w).tables && SealTables(w).tables[t] == Seal(w.tables[t])
  {
  }

  lemma TimerSealCloses(config: Config, lane: Lane, t: TableKind)
    requires LaneKept(config, lane) && t in config.named && lane.sink.ring == []
    ensures var sealed := Next(config, lane, TimerSeal);
            && sealed.accepted == lane.accepted && sealed.writer == SealTables(lane.writer)
            && t in sealed.writer.tables
            && sealed.writer.tables[t].open.None? && sealed.writer.tables[t].pending == []
            && FileRows(sealed.writer.tables[t].closed) == RowsOf(t, lane.accepted)
  {
    hide LaneKept, Seal, SealTables, FileRows, RowsOf;
    SealedLane(config, lane, t);
    SealTablesAt(lane.writer, t);
  }

  lemma LastStep(config: Config, steps: seq<Step>, step: Step)
    ensures Run(config, steps + [step]) == Next(config, Run(config, steps), step)
  {
    assert (steps + [step])[..|steps|] == steps;
  }

  function Pops(n: nat): seq<Step> {
    seq(n, i => Pop)
  }

  /** Pops, one by one, route the front of the ring in order. */
  lemma {:induction false} PopsRouteTheRing(config: Config, steps: seq<Step>, n: nat)
    requires n <= |Run(config, steps).sink.ring|
    ensures var lane := Run(config, steps);
            Run(config, steps + Pops(n))
            == lane.(sink := lane.sink.(ring := lane.sink.ring[n..]), consumed := lane.consumed + n,
                     writer := RouteAll(lane.writer, lane.sink.ring[..n]))
  {
    var lane := Run(config, steps);
    hide Run, Route;
    if n == 0 {
      assert steps + Pops(0) == steps && lane.sink.ring[0..] == lane.sink.ring;
    } else {
      PopsRouteTheRing(config, steps, n - 1);
      assert steps + Pops(n) == (steps + Pops(n - 1)) + [Pop];
      LastStep(config, steps + Pops(n - 1), Pop);
      assert lane.sink.ring[n - 1..][1..] == lane.sink.ring[n..];
      assert lane.sink.ring[..n][..n - 1] == lane.sink.ring[..n - 1];
    }
  }

  /** From any run, the final drain, which pops until the ring is empty and then seals, leaves every accepted row
      in a closed file and nothing open. */
  lemma DrainLeavesNothingOpen(config: Config, steps: seq<Step>, t: TableKind)
    requires t in config.named
    ensures var lane := Run(config, steps);
            var drained := Run(config, steps + Pops(|lane.sink.ring|) + [TimerSeal]);
            && drained.accepted == lane.accepted
            && drained.writer == SealTables(RouteAll(lane.writer, lane.sink.ring))
            && t in drained.writer.tables
            && drained.writer.tables[t].open.None? && drained.writer.tables[t].pending == []
            && FileRows(drained.writer.tables[t].closed) == RowsOf(t, lane.accepted)
  {
    hide Next, Run, Pops, Seal, SealTables, RouteAll, FileRows, RowsOf, LaneKept;
    var n := |Run(config, steps).sink.ring|;
    PopsRouteTheRing(config, steps, n);
    LastStep(config, steps + Pops(n), TimerSeal);
    EveryRunIsKept(config, steps + Pops(n));
    TimerSealCloses(config, Run(config, steps + Pops(n)), t);
    assert Run(config, steps).sink.ring[..n] == Run(config, steps).sink.ring;
  }

  // ---------------------------------------------------------------- the rotations lane

  /** The rotation rows a run takes, in order. */
  function RotationsOf(steps: seq<Step>): seq<Row>
    decreases |steps|
  {
    if steps == [] then []
    else
      var last := steps[|steps| - 1];
      RotationsOf(steps[..|steps| - 1]) + if last.Rotation? then [last.row] else []
  }

  lemma RouteKeepsRotations(w: WriterView, record: Record)
    requires Tidy(w.rotations)
    ensures AllRows(Route(w, record).rotations) == AllRows(w.rotations)
  {
    SealKeepsRows(w.rotations);
  }

  /** The rotations table holds exactly the rotation rows taken, each once and in order, whatever seals come between
      them from the ring or the timer. */
  lemma {:induction false} RotationsLandOnce(config: Config, steps: seq<Step>)
    ensures Tidy(Run(config, steps).writer.rotations)
    ensures AllRows(Run(config, steps).writer.rotations) == RotationsOf(steps)
    decreases |steps|
  {
    hide Tidy, AllRows, Seal, PushRow, Route, LaneKept;
    RotationsAreTidy(config, steps);
    if steps == [] {
      NoRowsAtFirst();
    } else {
      var lane, last := Run(config, steps[..|steps| - 1]), steps[|steps| - 1];
      RotationsLandOnce(config, steps[..|steps| - 1]);
      match last
      case Pop =>
        if lane.sink.ring != [] {
          RouteKeepsRotations(lane.writer, lane.sink.ring[0]);
        }
      case TimerSeal => SealKeepsRows(lane.writer.rotations);
      case Rotation(row) => PushAppends(lane.writer.rotations, row);
      case _ =>
    }
  }

  lemma RotationsAreTidy(config: Config, steps: seq<Step>)
    ensures Tidy(Run(config, steps).writer.rotations)
  {
    EveryRunIsKept(config, steps);
  }

  lemma NoRowsAtFirst()
    ensures AllRows(NEW_TABLE) == []
  {
  }

  lemma {:induction false} PopsTakeNoRotation(steps: seq<Step>, n: nat)
    ensures RotationsOf(steps + Pops(n)) == RotationsOf(steps)
  {
    if n == 0 {
      assert steps + Pops(0) == steps;
    } else {
      assert (steps + Pops(n))[..|steps| + n - 1] == steps + Pops(n - 1);
      PopsTakeNoRotation(steps, n - 1);
    }
  }

  /** And the final drain leaves them all in closed files too. */
  lemma DrainClosesTheRotations(config: Config, steps: seq<Step>)
    ensures var drained := Run(config, steps + Pops(|Run(config, steps).sink.ring|) + [TimerSeal]);
            && drained.writer.rotations.open.None? && drained.writer.rotations.pending == []
            && FileRows(drained.writer.rotations.closed) == RotationsOf(steps)
  {
    hide Run, AllRows, Seal, Tidy, FileRows, RotationsOf, Pops;
    var popped := steps + Pops(|Run(config, steps).sink.ring|);
    LastStep(config, popped, TimerSeal);
    RotationsLandOnce(config, popped);
    PopsTakeNoRotation(steps, |Run(config, steps).sink.ring|);
    SealKeepsRows(Run(config, popped).writer.rotations);
  }

  // ---------------------------------------------------------------- steps that do two things

  /** A push that finds a seal latched, and room for it, is a retry and then a push: the steps of a run stand for
      every interleaving of the two with the writer's pops. */
  lemma FlushingPushIsRetryThenPush(config: Config, lane: Lane, table: TableKind, row: Row)
    requires lane.sink.isSealPending && |lane.sink.ring| < config.capacity
    ensures Next(config, lane, Offer(table, row)) == Next(config, Next(config, lane, Retry), Offer(table, row))
  {
    var flushed := FlushSeal(config.capacity, lane.sink);
    AcceptInTwo(lane, flushed, PushRecord(config.capacity, flushed, RowRecord(table, row)));
  }
}
