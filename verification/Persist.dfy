/** The persistence lane: a sink that must never lose a seal (src/sink/latched.rs), the ring behind it, and
    the writer that drains the ring into one file set per table (src/persist/drain.rs). */
module Persist {
  import opened Common
  import opened Rings
  import opened Table

  datatype TableKind = Features | Trades | BookEvents | Klines | LinkFrames | Orders | Fills

  datatype Record = RowRecord(table: TableKind, row: Row) | SealAll

  const KINDS: seq<TableKind> := [Features, Trades, BookEvents, Klines, LinkFrames, Orders, Fills]

  lemma EveryKindIsListed(t: TableKind)
    ensures t in KINDS
  {
  }

  const MAX_POP_BATCH: nat := 8192

  // ---------------------------------------------------------------- the sink, as a value

  datatype SinkView = SinkView(ring: seq<Record>, dropped: nat, isSealPending: bool)

  const NEW_SINK := SinkView([], 0, false)

  function FlushSeal(capacity: nat, s: SinkView): SinkView {
    if |s.ring| < capacity then s.(ring := s.ring + [SealAll], isSealPending := false) else s
  }

  function PushRecord(capacity: nat, s: SinkView, record: Record): SinkView {
    var flushed := if s.isSealPending then FlushSeal(capacity, s) else s;
    if !flushed.isSealPending && |flushed.ring| < capacity then flushed.(ring := flushed.ring + [record])
    else flushed.(dropped := flushed.dropped + 1)
  }

  function RequestSeal(capacity: nat, s: SinkView): SinkView {
    FlushSeal(capacity, s.(isSealPending := true))
  }

  function RetrySeal(capacity: nat, s: SinkView): SinkView {
    if s.isSealPending then FlushSeal(capacity, s) else s
  }

  class PersistSink {
    const producer: Ring<Record>
    var dropped: nat
    var isSealPending: bool

    ghost function View(): SinkView
      reads this, producer
    {
      SinkView(producer.items, dropped, isSealPending)
    }

    constructor (producer: Ring<Record>)
      ensures this.producer == producer && !isSealPending && dropped == 0
    {
      this.producer, dropped, isSealPending := producer, 0, false;
    }

    method Push(record: Record)
      modifies this, producer
      ensures View() == PushRecord(producer.capacity, old(View()), record)
    {
      if isSealPending {
        Flush();
      }
      // While the seal is latched nothing may overtake it.
      var accepted := false;
      if !isSealPending {
        accepted := producer.Push(record);
      }
      if !accepted {
        dropped := dropped + 1;
      }
    }

    method Request()
      modifies this, producer
      ensures View() == RequestSeal(producer.capacity, old(View()))
    {
      isSealPending := true;
      Flush();
    }

    method Retry()
      modifies this, producer
      ensures View() == RetrySeal(producer.capacity, old(View()))
    {
      if isSealPending {
        Flush();
      }
    }

    method Flush()
      modifies this, producer
      ensures View() == FlushSeal(producer.capacity, old(View()))
    {
      var accepted := producer.Push(SealAll);
      if accepted {
        isSealPending := false;
      }
    }
  }

  // ---------------------------------------------------------------- the writer, as a value

  datatype WriterView = WriterView(tables: map<TableKind, TableView>, rotations: TableView, unnamedRows: nat)

  function NewWriter(named: set<TableKind>): WriterView {
    WriterView(map t | t in named :: NEW_TABLE, NEW_TABLE, 0)
  }

  function SealTables(w: WriterView): WriterView {
    w.(tables := map t | t in w.tables :: Seal(w.tables[t]), rotations := Seal(w.rotations))
  }

  function Route(w: WriterView, record: Record): WriterView {
    match record
    case SealAll => SealTables(w)
    case RowRecord(table, row) =>
      if table in w.tables then w.(tables := w.tables[table := PushRow(w.tables[table], row)])
      else w.(unnamedRows := w.unnamedRows + 1)
  }

  function RouteAll(w: WriterView, records: seq<Record>): WriterView
    decreases |records|
  {
    if records == [] then w else Route(RouteAll(w, records[..|records| - 1]), records[|records| - 1])
  }

  lemma RouteNone(w: WriterView, records: seq<Record>)
    ensures RouteAll(w, records[..0]) == w
  {
  }

  lemma RouteAllSnoc(w: WriterView, records: seq<Record>, i: nat)
    requires i < |records|
    ensures RouteAll(w, records[..i + 1]) == Route(RouteAll(w, records[..i]), records[i])
  {
    assert records[..i + 1][..i] == records[..i];
  }

  function PushRows(v: TableView, rows: seq<Row>): TableView
    decreases |rows|
  {
    if rows == [] then v else PushRow(PushRows(v, rows[..|rows| - 1]), rows[|rows| - 1])
  }

  /** A batch of rows is appended, in order. */
  lemma {:induction false} RowsAreAppended(v: TableView, rows: seq<Row>)
    requires Tidy(v)
    ensures Tidy(PushRows(v, rows)) && AllRows(PushRows(v, rows)) == AllRows(v) + rows
    decreases |rows|
  {
    hide Tidy, AllRows, PushRow;
    if rows == [] {
      assert AllRows(v) + [] == AllRows(v);
    } else {
      var front, last := rows[..|rows| - 1], rows[|rows| - 1];
      RowsAreAppended(v, front);
      PushAppends(PushRows(v, front), last);
      assert rows == front + [last] && AllRows(v) + front + [last] == AllRows(v) + (front + [last]);
    }
  }

  class WriterState {
    const consumer: Ring<Record>
    const rotationsRx: Ring<Row>
    const tables: map<TableKind, TableWriter>
    const rotations: TableWriter
    var unnamedRows: nat

    ghost function Writers(): set<TableWriter> {
      tables.Values + {rotations}
    }

    /** Each named table has a writer of its own. */
    ghost predicate Separate() {
      && (forall a, b :: a in tables && b in tables && a != b ==> tables[a] != tables[b])
      && rotations !in tables.Values
    }

    ghost function View(): WriterView
      reads this, Writers()
    {
      WriterView(map t | t in tables :: tables[t].View(), rotations.View(), unnamedRows)
    }

    constructor (consumer: Ring<Record>, rotationsRx: Ring<Row>,
                 tables: map<TableKind, TableWriter>, rotations: TableWriter)
      requires forall a, b :: a in tables && b in tables && a != b ==> tables[a] != tables[b]
      requires rotations !in tables.Values
      ensures Separate() && this.tables == tables && this.rotations == rotations && unnamedRows == 0
      ensures this.consumer == consumer && this.rotationsRx == rotationsRx
    {
      this.consumer, this.rotationsRx := consumer, rotationsRx;
      this.tables, this.rotations, this.unnamedRows := tables, rotations, 0;
    }

    method RouteOne(record: Record)
      requires Separate()
      modifies this, Writers()
      ensures View() == Route(old(View()), record)
    {
      hide Seal, PushRow, TableWriter.View;
      match record {
        case SealAll => SealEvery();
        case RowRecord(table, row) =>
          if table in tables {
            var writer := tables[table];
            writer.Push(row);
            assert forall t :: t in tables && t != table ==> tables[t].View() == old(tables[t].View());
            assert View().tables == Route(old(View()), record).tables;
          } else {
            unnamedRows := unnamedRows + 1;
          }
      }
    }

    method SealEvery()
      requires Separate()
      modifies Writers()
      ensures View() == SealTables(old(View()))
    {
      hide Seal, TableWriter.View;
      SealListed(KINDS);
      rotations.SealFile();
      forall t | t in tables
        ensures tables[t].View() == Seal(old(tables[t].View()))
      {
        EveryKindIsListed(t);
      }
      assert View().tables == SealTables(old(View())).tables;
    }

    method SealListed(kinds: seq<TableKind>)
      requires Separate()
      requires forall i, j :: 0 <= i < j < |kinds| ==> kinds[i] != kinds[j]
      modifies tables.Values
      ensures forall t :: t in tables && t in kinds ==> tables[t].View() == Seal(old(tables[t].View()))
      ensures forall t :: t in tables && t !in kinds ==> tables[t].View() == old(tables[t].View())
    {
      hide Seal, TableWriter.View;
      for i := 0 to |kinds|
        invariant forall t :: t in tables && t in kinds[..i] ==> tables[t].View() == Seal(old(tables[t].View()))
        invariant forall t :: t in tables && t !in kinds[..i] ==> tables[t].View() == old(tables[t].View())
      {
        assert kinds[i] !in kinds[..i] && kinds[..i + 1] == kinds[..i] + [kinds[i]];
        if kinds[i] in tables {
          var writer := tables[kinds[i]];
          writer.SealFile();
        }
      }
      assert kinds[..|kinds|] == kinds;
    }

    /** One pass of the pump: at most a batch from each lane, records before rotations. */
    method ConsumeBatch() returns (drainedAny: bool)
      requires Separate()
      modifies this, Writers(), consumer, rotationsRx
      ensures var n, m := Min(MAX_POP_BATCH, |old(consumer.items)|), Min(MAX_POP_BATCH, |old(rotationsRx.items)|);
              var routed := RouteAll(old(View()), old(consumer.items)[..n]);
              && View() == routed.(rotations := PushRows(routed.rotations, old(rotationsRx.items)[..m]))
              && consumer.items == old(consumer.items)[n..] && rotationsRx.items == old(rotationsRx.items)[m..]
              && (drainedAny <==> n > 0 || m > 0)
    {
      hide RouteAll, PushRows, TableWriter.View;
      var count := DrainRecords(MAX_POP_BATCH);
      ghost var routed := View();
      label Routed:
      var rows := DrainRotations(MAX_POP_BATCH);
      assert forall t :: t in tables ==> tables[t].View() == old@Routed(tables[t].View());
      assert View().tables == routed.tables;
      drainedAny := count > 0 || rows > 0;
    }

    /** The last pass, once the producers have stopped: both lanes to the end, and then every file closed. */
    method Finish()
      requires Separate()
      modifies this, Writers(), consumer, rotationsRx
      ensures var routed := RouteAll(old(View()), old(consumer.items));
              View() == SealTables(routed.(rotations := PushRows(routed.rotations, old(rotationsRx.items))))
      ensures consumer.items == [] && rotationsRx.items == []
    {
      hide RouteAll, PushRows, TableWriter.View, Seal;
      var count := DrainRecords(|consumer.items|);
      assert old(consumer.items)[..count] == old(consumer.items);
      ghost var routed := View();
      label Routed:
      var rows := DrainRotations(|rotationsRx.items|);
      assert old(rotationsRx.items)[..rows] == old(rotationsRx.items);
      assert forall t :: t in tables ==> tables[t].View() == old@Routed(tables[t].View());
      assert View().tables == routed.tables;
      SealEvery();
    }

    method DrainRecords(limit: nat) returns (count: nat)
      requires Separate()
      modifies this, Writers(), consumer
      ensures count == Min(limit, |old(consumer.items)|)
      ensures View() == RouteAll(old(View()), old(consumer.items)[..count])
      ensures consumer.items == old(consumer.items)[count..]
    {
      hide RouteAll, Route, View, Separate;
      ghost var items, before := consumer.items, View();
      RouteNone(before, items);
      count := 0;
      while count < limit
        invariant count <= Min(limit, |items|) && consumer.items == items[count..]
        invariant View() == RouteAll(before, items[..count])
      {
        var record := consumer.Pop();
        if record.None? {
          break;
        }
        RouteAllSnoc(before, items, count);
        assert items[count..][1..] == items[count + 1..];
        RouteOne(record.value);
        count := count + 1;
      }
    }

    method DrainRotations(limit: nat) returns (count: nat)
      modifies rotations, rotationsRx
      ensures count == Min(limit, |old(rotationsRx.items)|)
      ensures rotations.View() == PushRows(old(rotations.View()), old(rotationsRx.items)[..count])
      ensures rotationsRx.items == old(rotationsRx.items)[count..]
    {
      ghost var items := rotationsRx.items;
      count := 0;
      while count < limit
        invariant count <= Min(limit, |items|) && rotationsRx.items == items[count..]
        invariant rotations.View() == PushRows(old(rotations.View()), items[..count])
      {
        var row := rotationsRx.Pop();
        if row.None? {
          break;
        }
        assert items[..count + 1][..count] == items[..count];
        rotations.Push(row.value);
        count := count + 1;
      }
    }
  }
}
