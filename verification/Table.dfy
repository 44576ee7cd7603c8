/** One table's files (src/persist/table.rs): rows are buffered, written in batches, and the file is sealed
    and rolled on the row cap, when a record's hour passes the file's, or when told to. A file is the
    sequence of rows written to it; its bytes are not modelled, and no write fails. */
module Table {
  import opened Common

  const ROWS_PER_WRITE: nat := 1000
  const ROWS_PER_SEAL: nat := 10_000
  const US_PER_HOUR: int := 3_600_000_000

  datatype Row = Row(partitionTs: int, body: int)

  /** The name of a file is its hour and its sequence number. */
  datatype TableFile = TableFile(hourBucket: int, sequence: nat, rows: seq<Row>)

  datatype TableView = TableView(pending: seq<Row>, open: Option<TableFile>, nextSequence: nat, closed: seq<TableFile>)

  const NEW_TABLE := TableView([], None, 0, [])

  /** Hours since the epoch, counted downwards before it. */
  function HourBucket(ts: int): (hour: int)
    ensures hour * 3_600_000_000 <= ts < (hour + 1) * 3_600_000_000
  {
    ts / US_PER_HOUR
  }

  function WritePending(v: TableView): TableView {
    if v.pending == [] || v.open.None? then v
    else v.(pending := [], open := Some(v.open.value.(rows := v.open.value.rows + v.pending)))
  }

  function Seal(v: TableView): TableView {
    var w := WritePending(v);
    if w.open.None? then w else w.(open := None, closed := w.closed + [w.open.value])
  }

  function OpenNew(v: TableView, hourBucket: int): TableView {
    v.(open := Some(TableFile(hourBucket, v.nextSequence, [])), nextSequence := v.nextSequence + 1)
  }

  function RowsSinceSeal(v: TableView): nat {
    (if v.open.Some? then |v.open.value.rows| else 0) + |v.pending|
  }

  function NeedsNewFile(v: TableView, row: Row): bool {
    v.open.None? || HourBucket(row.partitionTs) > v.open.value.hourBucket
  }

  function Readied(v: TableView, row: Row): TableView {
    if NeedsNewFile(v, row) then OpenNew(Seal(v), HourBucket(row.partitionTs)) else v
  }

  /** A row lands in the buffer, and the caps are looked at. */
  function Settled(held: TableView): TableView {
    var written := if |held.pending| >= ROWS_PER_WRITE then WritePending(held) else held;
    if RowsSinceSeal(written) >= ROWS_PER_SEAL then Seal(written) else written
  }

  function PushRow(v: TableView, row: Row): TableView {
    var readied := Readied(v, row);
    Settled(readied.(pending := readied.pending + [row]))
  }

  // ---------------------------------------------------------------- what a table promises

  function FileRows(files: seq<TableFile>): seq<Row>
    decreases |files|
  {
    if files == [] then [] else FileRows(files[..|files| - 1]) + files[|files| - 1].rows
  }

  function OpenRows(v: TableView): seq<Row> {
    if v.open.Some? then v.open.value.rows else []
  }

  /** Every row the table has taken, in the order its files hold them. */
  function AllRows(v: TableView): seq<Row> {
    FileRows(v.closed) + OpenRows(v) + v.pending
  }

  /** A file belongs to the hour of its first row, and holds nothing newer than that hour. */
  predicate OfItsHour(hourBucket: int, rows: seq<Row>) {
    && (forall row :: row in rows ==> HourBucket(row.partitionTs) <= hourBucket)
    && (rows != [] ==> HourBucket(rows[0].partitionTs) == hourBucket)
  }

  ghost predicate TidyClosed(closed: seq<TableFile>) {
    forall i :: 0 <= i < |closed| ==>
      && 0 < |closed[i].rows| <= ROWS_PER_SEAL
      && OfItsHour(closed[i].hourBucket, closed[i].rows)
      && closed[i].sequence == i
  }

  ghost predicate Tidy(v: TableView) {
    && |v.pending| < ROWS_PER_WRITE
    && RowsSinceSeal(v) < ROWS_PER_SEAL
    && (v.open.None? ==> v.pending == [])
    && (v.open.Some? ==>
          && OpenRows(v) + v.pending != []
          && OfItsHour(v.open.value.hourBucket, OpenRows(v) + v.pending)
          && v.open.value.sequence + 1 == v.nextSequence)
    && TidyClosed(v.closed)
    && v.nextSequence == |v.closed| + (if v.open.Some? then 1 else 0)
  }

  lemma FileRowsSnoc(files: seq<TableFile>, file: TableFile)
    ensures FileRows(files + [file]) == FileRows(files) + file.rows
  {
  }

  /** A table with a file open, its caps possibly just reached. */
  ghost predicate Open(v: TableView) {
    && v.open.Some?
    && RowsSinceSeal(v) <= ROWS_PER_SEAL && |v.pending| <= ROWS_PER_WRITE
    && OfItsHour(v.open.value.hourBucket, OpenRows(v) + v.pending)
    && v.open.value.sequence + 1 == v.nextSequence == |v.closed| + 1
    && TidyClosed(v.closed)
  }

  lemma SealKeepsRows(v: TableView)
    requires Tidy(v) || (Open(v) && RowsSinceSeal(v) > 0)
    ensures var v' := Seal(v);
            && Tidy(v') && v'.pending == [] && v'.open.None?
            && FileRows(v'.closed) == AllRows(v') == AllRows(v)
            && v.closed <= v'.closed
  {
    hide FileRows, OfItsHour;
    assert v.open.None? && v.pending == [] ==> AllRows(v) == FileRows(v.closed);
    var w := WritePending(v);
    if w.open.Some? {
      assert w.open.value.rows == OpenRows(v) + v.pending;
      FileRowsSnoc(w.closed, w.open.value);
      assert FileRows(v.closed) + (OpenRows(v) + v.pending) == AllRows(v);
    }
  }

  lemma ReadyingKeepsRows(v: TableView, row: Row)
    requires Tidy(v)
    ensures var r := Readied(v, row);
            && Open(r) && AllRows(r) == AllRows(v) && v.closed <= r.closed
            && RowsSinceSeal(r) < ROWS_PER_SEAL && |r.pending| < ROWS_PER_WRITE
            && HourBucket(row.partitionTs) <= r.open.value.hourBucket
            && (OpenRows(r) + r.pending == [] ==> HourBucket(row.partitionTs) == r.open.value.hourBucket)
  {
    if NeedsNewFile(v, row) {
      SealKeepsRows(v);
    }
  }

  lemma HoldingAppends(r: TableView, row: Row)
    requires Open(r) && RowsSinceSeal(r) < ROWS_PER_SEAL && |r.pending| < ROWS_PER_WRITE
    requires HourBucket(row.partitionTs) <= r.open.value.hourBucket
    requires OpenRows(r) + r.pending == [] ==> HourBucket(row.partitionTs) == r.open.value.hourBucket
    ensures var held := r.(pending := r.pending + [row]);
            Open(held) && RowsSinceSeal(held) > 0 && AllRows(held) == AllRows(r) + [row]
  {
  }

  lemma SettlingKeepsRows(held: TableView)
    requires Open(held) && RowsSinceSeal(held) > 0
    ensures Tidy(Settled(held)) && AllRows(Settled(held)) == AllRows(held) && held.closed <= Settled(held).closed
  {
    hide FileRows, OfItsHour, TidyClosed;
    var written := if |held.pending| >= ROWS_PER_WRITE then WritePending(held) else held;
    assert OpenRows(written) + written.pending == OpenRows(held) + held.pending;
    assert AllRows(written) == FileRows(held.closed) + (OpenRows(held) + held.pending) == AllRows(held);
    if RowsSinceSeal(written) >= ROWS_PER_SEAL {
      SealKeepsRows(written);
    }
  }

  /** A pushed row is appended to the table's rows, no file ever holds more than the cap, and no closed
      file is touched again. */
  lemma PushAppends(v: TableView, row: Row)
    requires Tidy(v)
    ensures var v' := PushRow(v, row);
            Tidy(v') && AllRows(v') == AllRows(v) + [row] && v.closed <= v'.closed
  {
    ReadyingKeepsRows(v, row);
    var r := Readied(v, row);
    HoldingAppends(r, row);
    SettlingKeepsRows(r.(pending := r.pending + [row]));
  }

  /** A row goes into the open file while its hour has not passed the file's; only a full file is closed by it. */
  lemma RowsOfAnHourShareAFile(v: TableView, row: Row)
    requires Tidy(v) && v.open.Some? && HourBucket(row.partitionTs) <= v.open.value.hourBucket
    ensures var file, v' := v.open.value, PushRow(v, row);
            var rows := OpenRows(v) + v.pending + [row];
            && (|rows| < ROWS_PER_SEAL ==>
                  && v'.closed == v.closed && v'.open.Some?
                  && v'.open.value.hourBucket == file.hourBucket && v'.open.value.sequence == file.sequence
                  && OpenRows(v') + v'.pending == rows)
            && (|rows| == ROWS_PER_SEAL ==>
                  && v'.open.None? && v'.closed == v.closed + [TableFile(file.hourBucket, file.sequence, rows)])
  {
    assert OpenRows(v) + (v.pending + [row]) == OpenRows(v) + v.pending + [row];
    assert OpenRows(v) + v.pending + [row] + [] == OpenRows(v) + v.pending + [row];
    hide OfItsHour, TidyClosed;
  }

  /** A row of a later hour, or the first of all, opens a file of its own hour with the next number, once the file
      before it is closed with all its rows. */
  lemma LaterHoursOpenAFile(v: TableView, row: Row)
    requires Tidy(v) && (v.open.Some? ==> HourBucket(row.partitionTs) > v.open.value.hourBucket)
    ensures var v' := PushRow(v, row);
            && v'.open == Some(TableFile(HourBucket(row.partitionTs), v.nextSequence, []))
            && v'.pending == [row] && v'.nextSequence == v.nextSequence + 1
            && v'.closed == v.closed + (if v.open.None? then []
                                        else [v.open.value.(rows := OpenRows(v) + v.pending)])
  {
    assert v.closed + [] == v.closed && OpenRows(v) + [] == OpenRows(v);
    hide OfItsHour, TidyClosed;
  }

  /** Rows wait in memory until a thousand have come, and then all go into the file. */
  lemma RowsWaitForABatch(v: TableView, row: Row)
    requires Tidy(v) && v.open.Some? && HourBucket(row.partitionTs) <= v.open.value.hourBucket
    requires RowsSinceSeal(v) + 1 < ROWS_PER_SEAL
    ensures var v' := PushRow(v, row);
            && (|v.pending| + 1 < ROWS_PER_WRITE ==> v'.pending == v.pending + [row] && OpenRows(v') == OpenRows(v))
            && (|v.pending| + 1 == ROWS_PER_WRITE ==>
                  v'.pending == [] && OpenRows(v') == OpenRows(v) + v.pending + [row])
  {
    assert OpenRows(v) + (v.pending + [row]) == OpenRows(v) + v.pending + [row];
    hide OfItsHour, TidyClosed;
  }

  // ---------------------------------------------------------------- the writer itself

  class TableWriter {
    var pending: seq<Row>
    var open: Option<TableFile>
    var nextSequence: nat
    ghost var closed: seq<TableFile>

    ghost function View(): TableView
      reads this
    {
      TableView(pending, open, nextSequence, closed)
    }

    constructor ()
      ensures View() == NEW_TABLE
    {
      pending, open, nextSequence, closed := [], None, 0, [];
    }

    method Push(row: Row)
      modifies this
      ensures View() == PushRow(old(View()), row)
    {
      var hourBucket := HourBucket(row.partitionTs);
      var needsNewFile := match open { case Some(file) => hourBucket > file.hourBucket case None => true };
      if needsNewFile {
        SealFile();
        OpenFile(hourBucket);
      }
      pending := pending + [row];
      if |pending| >= ROWS_PER_WRITE {
        WriteRows();
      }
      var written := match open { case Some(file) => |file.rows| case None => 0 };
      if written + |pending| >= ROWS_PER_SEAL {
        SealFile();
      }
    }

    method SealFile()
      modifies this
      ensures View() == Seal(old(View()))
    {
      WriteRows();
      if open.Some? {
        closed := closed + [open.value];
        open := None;
      }
    }

    method WriteRows()
      modifies this
      ensures View() == WritePending(old(View()))
    {
      if pending == [] || open.None? {
        return;
      }
      open := Some(open.value.(rows := open.value.rows + pending));
      pending := [];
    }

    method OpenFile(hourBucket: int)
      modifies this
      ensures View() == OpenNew(old(View()), hourBucket)
    {
      open := Some(TableFile(hourBucket, nextSequence, []));
      nextSequence := nextSequence + 1;
    }
  }
}
