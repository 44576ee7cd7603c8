/** The position lane: a sink that keeps only the newest snapshot until the writer takes it
    (src/sink/replacing.rs), and the writer that puts the newest it has seen on disk
    (src/exposure/writer.rs). */
module Exposure {
  import opened Common
  import opened Rings

  const FLUSH_ATTEMPTS: nat := 250
  const MAX_EXPOSURE_INSTRUMENTS: nat := 16

  /** A snapshot is its sequence number and the state it carries. */
  datatype Snapshot<T> = Snapshot(seqNo: nat, state: T)

  // ---------------------------------------------------------------- the sink

  datatype SinkView<T> = SinkView(ring: seq<Snapshot<T>>, pending: Option<Snapshot<T>>, superseded: nat)

  function RetryPending<T>(capacity: nat, s: SinkView<T>): SinkView<T> {
    if s.pending.Some? && |s.ring| < capacity then s.(ring := s.ring + [s.pending.value], pending := None) else s
  }

  function PushSnapshot<T>(capacity: nat, s: SinkView<T>, snapshot: Snapshot<T>): SinkView<T> {
    RetryPending(capacity, s.(pending := Some(snapshot),
                              superseded := s.superseded + if s.pending.Some? then 1 else 0))
  }

  class ExposureSink<T> {
    const producer: Ring<Snapshot<T>>
    var pending: Option<Snapshot<T>>
    var superseded: nat

    ghost function View(): SinkView<T>
      reads this, producer
    {
      SinkView(producer.items, pending, superseded)
    }

    constructor (producer: Ring<Snapshot<T>>)
      ensures this.producer == producer && pending == None && superseded == 0
    {
      this.producer, pending, superseded := producer, None, 0;
    }

    method Push(snapshot: Snapshot<T>)
      modifies this, producer
      ensures View() == PushSnapshot(producer.capacity, old(View()), snapshot)
    {
      if pending.Some? {
        superseded := superseded + 1;
      }
      pending := Some(snapshot);
      Retry();
    }

    method Retry()
      modifies this, producer
      ensures View() == RetryPending(producer.capacity, old(View()))
    {
      if pending.None? {
        return;
      }
      var accepted := producer.Push(pending.value);
      if accepted {
        pending := None;
      }
    }

    /** The destructor's bounded flush. Between attempts the writer may pop (`pops` says how many it takes
        in each pause, `gone` whether it has abandoned the ring by then). One pop before the last attempt is
        enough for the final snapshot to reach the ring. */
    method Flush(pops: seq<nat>, gone: seq<bool>) returns (attempts: nat)
      requires |pops| == |gone| == FLUSH_ATTEMPTS && producer.capacity > 0
      modifies this, producer
      ensures attempts <= FLUSH_ATTEMPTS && superseded == old(superseded)
      ensures pending.None? || pending == old(pending)
      ensures pending.Some? ==> attempts == FLUSH_ATTEMPTS || gone[attempts]
      ensures (|old(producer.items)| < producer.capacity || exists i :: 0 <= i < FLUSH_ATTEMPTS - 1 && pops[i] > 0)
              && (forall i :: 0 <= i < FLUSH_ATTEMPTS ==> !gone[i]) && |old(producer.items)| <= producer.capacity
              ==> pending.None?
    {
      attempts := 0;
      while attempts < FLUSH_ATTEMPTS
        invariant attempts <= FLUSH_ATTEMPTS && superseded == old(superseded) && pending == old(pending)
        invariant attempts > 0 ==> pending.Some? && !gone[attempts - 1]
        invariant attempts == 0 ==> producer.items == old(producer.items)
        invariant |old(producer.items)| <= producer.capacity ==> |producer.items| <= producer.capacity
        invariant |old(producer.items)| <= producer.capacity && attempts > 0 ==>
                    && |old(producer.items)| == producer.capacity
                    && (forall i :: 0 <= i < attempts - 1 ==> pops[i] == 0)
                    && (|producer.items| < producer.capacity <==> pops[attempts - 1] > 0)
      {
        Retry();
        if pending.None? || gone[attempts] {
          return;
        }
        producer.items := producer.items[Min(pops[attempts], |producer.items|)..];
        attempts := attempts + 1;
      }
    }
  }

  // ---------------------------------------------------------------- the writer

  datatype WriterView<T> = WriterView(
    latest: Snapshot<T>, writtenSeq: Option<nat>, failedWrites: nat, file: Snapshot<T>)

  /** Keep only the newest snapshot; the earlier ones are the same state at an older time. */
  function TakeLatest<T>(w: WriterView<T>, ring: seq<Snapshot<T>>): WriterView<T> {
    if ring == [] then w else w.(latest := ring[|ring| - 1])
  }

  /** A write replaces the file whole or fails and leaves it. */
  function WriteIfChanged<T>(w: WriterView<T>, writeSucceeds: bool): WriterView<T> {
    if w.writtenSeq == Some(w.latest.seqNo) then w
    else if writeSucceeds then w.(file := w.latest, writtenSeq := Some(w.latest.seqNo))
    else w.(failedWrites := w.failedWrites + 1)
  }

  class WriterState<T> {
    const consumer: Ring<Snapshot<T>>
    var latest: Snapshot<T>
    var writtenSeq: Option<nat>
    var failedWrites: nat
    ghost var file: Snapshot<T>

    ghost function View(): WriterView<T>
      reads this
    {
      WriterView(latest, writtenSeq, failedWrites, file)
    }

    /** The writer starts from what is already on disk, as sequence zero. */
    constructor (consumer: Ring<Snapshot<T>>, seed: Snapshot<T>)
      requires seed.seqNo == 0
      ensures this.consumer == consumer && View() == WriterView(seed, Some(0), 0, seed)
    {
      this.consumer := consumer;
      latest, writtenSeq, failedWrites, file := seed, Some(0), 0, seed;
    }

    method DrainToLatest()
      modifies this`latest, consumer
      ensures View() == TakeLatest(old(View()), old(consumer.items)) && consumer.items == []
    {
      ghost var items := consumer.items;
      ghost var popped := 0;
      while true
        invariant popped <= |items| && consumer.items == items[popped..]
        invariant latest == if popped == 0 then old(latest) else items[popped - 1]
        decreases |items| - popped
      {
        var snapshot := consumer.Pop();
        if snapshot.None? {
          break;
        }
        latest := snapshot.value;
        popped := popped + 1;
      }
    }

    method Write(writeSucceeds: bool) returns (ok: bool)
      modifies this`writtenSeq, this`file
      ensures View() == WriteIfChanged(old(View()), writeSucceeds).(failedWrites := old(failedWrites))
      ensures ok <==> writtenSeq == Some(latest.seqNo)
    {
      if writtenSeq == Some(latest.seqNo) {
        return true;
      }
      if !writeSucceeds {
        return false;
      }
      file := latest;
      writtenSeq := Some(latest.seqNo);
      ok := true;
    }

    /** One turn of the writer's loop. A failed write is retried on the next poll, changed or not. */
    method Poll(writeSucceeds: bool)
      modifies this, consumer
      ensures View() == WriteIfChanged(TakeLatest(old(View()), old(consumer.items)), writeSucceeds)
      ensures consumer.items == []
    {
      DrainToLatest();
      var ok := Write(writeSucceeds);
      if !ok {
        failedWrites := failedWrites + 1;
      }
    }
  }

  /** Restored rows as the first snapshot: as many as fit, in order. */
  function SeedRows<R>(restored: seq<R>): (rows: seq<R>)
    ensures rows <= restored && |rows| == Min(|restored|, MAX_EXPOSURE_INSTRUMENTS)
  {
    restored[..Min(|restored|, MAX_EXPOSURE_INSTRUMENTS)]
  }

  // ---------------------------------------------------------------- runs of the lane

  /** One ring operation or one write: a push may land between any two pops, or between a pop and the write. */
  datatype Step<T> = Push(snapshot: Snapshot<T>) | Retry | Pop | Write(succeeds: bool)

  /** `pushed` is everything the hot side pushed; `delivered` holds the positions in it of the snapshots that
      entered the ring, of which the writer has popped the first `popped`. */
  datatype Lane<T> = Lane(
    sink: SinkView<T>, writer: WriterView<T>, pushed: seq<Snapshot<T>>, delivered: seq<nat>, popped: nat)

  function NewLane<T>(seed: T): Lane<T> {
    var first := Snapshot(0, seed);
    Lane(SinkView([], None, 0), WriterView(first, Some(0), 0, first), [], [], 0)
  }

  /** The newest push waits in the pending slot, in place of any older one. */
  function Superseded<T>(lane: Lane<T>, snapshot: Snapshot<T>): Lane<T> {
    lane.(pushed := lane.pushed + [snapshot],
          sink := lane.sink.(pending := Some(snapshot),
                             superseded := lane.sink.superseded + if lane.sink.pending.Some? then 1 else 0))
  }

  function Retried<T>(capacity: nat, lane: Lane<T>): Lane<T> {
    var sink := RetryPending(capacity, lane.sink);
    lane.(sink := sink,
          delivered := if lane.sink.pending.Some? && sink.pending.None? && |lane.pushed| > 0
                       then lane.delivered + [|lane.pushed| - 1] else lane.delivered)
  }

  function Popped<T>(lane: Lane<T>): Lane<T> {
    if lane.sink.ring == [] then lane
    else
      lane.(sink := lane.sink.(ring := lane.sink.ring[1..]), popped := lane.popped + 1,
            writer := TakeLatest(lane.writer, lane.sink.ring[..1]))
  }

  function Next<T>(capacity: nat, lane: Lane<T>, step: Step<T>): Lane<T> {
    match step
    case Push(snapshot) => Retried(capacity, Superseded(lane, snapshot))
    case Retry => Retried(capacity, lane)
    case Pop => Popped(lane)
    case Write(succeeds) => lane.(writer := WriteIfChanged(lane.writer, succeeds))
  }

  function After<T>(capacity: nat, lane: Lane<T>, steps: seq<Step<T>>): Lane<T>
    decreases |steps|
  {
    if steps == [] then lane else Next(capacity, After(capacity, lane, steps[..|steps| - 1]), steps[|steps| - 1])
  }

  function Run<T>(capacity: nat, seed: T, steps: seq<Step<T>>): Lane<T> {
    After(capacity, NewLane(seed), steps)
  }

  lemma LastStep<T>(capacity: nat, lane: Lane<T>, steps: seq<Step<T>>, step: Step<T>)
    ensures After(capacity, lane, steps + [step]) == Next(capacity, After(capacity, lane, steps), step)
  {
    assert (steps + [step])[..|steps|] == steps;
  }

  // ---------------------------------------------------------------- what one step does

  /** A push is in the ring at once while there is room, and waits in place of any older one while there is none. */
  lemma PushesEnterWhileThereIsRoom<T>(capacity: nat, lane: Lane<T>, snapshot: Snapshot<T>)
    ensures var sink, sink' := lane.sink, Next(capacity, lane, Push(snapshot)).sink;
            && sink'.superseded == sink.superseded + (if sink.pending.Some? then 1 else 0)
            && (|sink.ring| < capacity ==> sink'.ring == sink.ring + [snapshot] && sink'.pending.None?)
            && (|sink.ring| >= capacity ==> sink'.ring == sink.ring && sink'.pending == Some(snapshot))
  {
  }

  /** A retry puts the waiting snapshot in as soon as there is room, and does nothing else. */
  lemma RetriesEnterWhenThereIsRoom<T>(capacity: nat, lane: Lane<T>)
    ensures var sink, sink' := lane.sink, Next(capacity, lane, Step<T>.Retry).sink;
            if sink.pending.Some? && |sink.ring| < capacity
            then sink' == SinkView(sink.ring + [sink.pending.value], None, sink.superseded)
            else sink' == sink
  {
  }

  /** The writer holds the newest snapshot it has taken. It writes exactly when that is not the one last written; a
      write that does not take is counted and leaves everything to be written still. */
  lemma WriterWritesWhatChanged<T>(capacity: nat, lane: Lane<T>, succeeds: bool)
    ensures lane.sink.ring != [] ==>
              var popped := Next(capacity, lane, Step<T>.Pop);
              && popped.sink.ring == lane.sink.ring[1..] && popped.sink.pending == lane.sink.pending
              && popped.writer == lane.writer.(latest := lane.sink.ring[0])
    ensures lane.sink.ring == [] ==> Next(capacity, lane, Step<T>.Pop) == lane
    ensures var w, w' := lane.writer, Next(capacity, lane, Write(succeeds)).writer;
            var isChanged := w.writtenSeq != Some(w.latest.seqNo);
            && w'.latest == w.latest
            && (isChanged && succeeds ==> w'.file == w.latest && w'.writtenSeq == Some(w.latest.seqNo))
            && (!(isChanged && succeeds) ==> w'.file == w.file && w'.writtenSeq == w.writtenSeq)
            && w'.failedWrites == w.failedWrites + (if isChanged && !succeeds then 1 else 0)
  {
  }

  // ---------------------------------------------------------------- steps and calls are one lane

  function Pops<T>(n: nat): seq<Step<T>> {
    seq(n, i => Step<T>.Pop)
  }

  lemma NoPops<T>(capacity: nat, lane: Lane<T>)
    ensures After(capacity, lane, Pops(0)) == lane
  {
    assert Pops<T>(0) == [];
  }

  lemma OnePopMore<T>(capacity: nat, lane: Lane<T>, n: nat)
    requires n > 0
    ensures After(capacity, lane, Pops(n)) == Popped(After(capacity, lane, Pops(n - 1)))
  {
    assert Pops<T>(n) == Pops<T>(n - 1) + [Step<T>.Pop];
    LastStep(capacity, lane, Pops(n - 1), Step<T>.Pop);
    hide After, Pops, Popped;
  }

  /** The lane with the first `n` snapshots of its ring taken. */
  function Taken<T>(lane: Lane<T>, n: nat): Lane<T>
    requires n <= |lane.sink.ring|
  {
    lane.(sink := lane.sink.(ring := lane.sink.ring[n..]), popped := lane.popped + n,
          writer := TakeLatest(lane.writer, lane.sink.ring[..n]))
  }

  lemma TakingOneMore<T>(lane: Lane<T>, n: nat)
    requires 0 < n <= |lane.sink.ring|
    ensures Popped(Taken(lane, n - 1)) == Taken(lane, n)
  {
    assert lane.sink.ring[n - 1..][1..] == lane.sink.ring[n..];
  }

  lemma {:induction false} PopsTakeTheNewest<T>(capacity: nat, lane: Lane<T>, n: nat)
    requires n <= |lane.sink.ring|
    ensures After(capacity, lane, Pops(n)) == Taken(lane, n)
  {
    hide After, Pops, Popped;
    if n == 0 {
      NoPops(capacity, lane);
      assert lane.sink.ring[0..] == lane.sink.ring;
    } else {
      OnePopMore(capacity, lane, n);
      PopsTakeTheNewest(capacity, lane, n - 1);
      TakingOneMore(lane, n);
    }
  }

  /** Single steps add up to the calls: a push and a retry are the sink's own, and pops until the ring is empty,
      then a write, are one turn of the writer's loop. */
  lemma StepsAreTheCalls<T>(capacity: nat, lane: Lane<T>, snapshot: Snapshot<T>, succeeds: bool)
    ensures Next(capacity, lane, Push(snapshot)).sink == PushSnapshot(capacity, lane.sink, snapshot)
    ensures Next(capacity, lane, Step<T>.Retry).sink == RetryPending(capacity, lane.sink)
    ensures var turn := After(capacity, lane, Pops(|lane.sink.ring|) + [Write(succeeds)]);
            && turn.sink.ring == [] && turn.sink.pending == lane.sink.pending
            && turn.writer == WriteIfChanged(TakeLatest(lane.writer, lane.sink.ring), succeeds)
  {
    PopsTakeTheNewest(capacity, lane, |lane.sink.ring|);
    LastStep(capacity, lane, Pops(|lane.sink.ring|), Write(succeeds));
    assert lane.sink.ring[..|lane.sink.ring|] == lane.sink.ring;
    hide After, Pops, TakeLatest, WriteIfChanged;
  }

  // ---------------------------------------------------------------- what every run keeps

  /** The hot side numbers its snapshots from one, upwards. */
  ghost predicate Numbered<T>(pushed: seq<Snapshot<T>>) {
    && (forall i :: 0 <= i < |pushed| ==> pushed[i].seqNo >= 1)
    && (forall i, j :: 0 <= i < j < |pushed| ==> pushed[i].seqNo < pushed[j].seqNo)
  }

  /** Delivered positions run forwards: what the writer sees is a subsequence of what was pushed. */
  ghost predicate Forwards(delivered: seq<nat>, count: nat) {
    && (forall i, j :: 0 <= i < j < |delivered| ==> delivered[i] < delivered[j])
    && (forall i :: 0 <= i < |delivered| ==> delivered[i] < count)
  }

  /** The ring holds exactly the delivered snapshots not yet popped, in order. */
  ghost predicate Holds<T>(ring: seq<Snapshot<T>>, pushed: seq<Snapshot<T>>, delivered: seq<nat>, popped: nat) {
    && popped + |ring| == |delivered|
    && (forall i :: popped <= i < |delivered| ==> delivered[i] < |pushed| && ring[i - popped] == pushed[delivered[i]])
  }

  ghost predicate RingKept<T>(lane: Lane<T>) {
    Forwards(lane.delivered, |lane.pushed|) && Holds(lane.sink.ring, lane.pushed, lane.delivered, lane.popped)
  }

  ghost predicate SlotKept<T>(lane: Lane<T>) {
    && |lane.pushed| == |lane.delivered| + lane.sink.superseded + (if lane.sink.pending.Some? then 1 else 0)
    && (lane.sink.pending.Some? ==>
          && lane.pushed != [] && lane.sink.pending.value == lane.pushed[|lane.pushed| - 1]
          && Forwards(lane.delivered, |lane.pushed| - 1))
    && (lane.sink.pending.None? && lane.pushed != [] ==>
          lane.delivered != [] && lane.delivered[|lane.delivered| - 1] == |lane.pushed| - 1)
  }

  /** The last snapshot popped, or the one restored before any was. */
  function LastPopped<T>(lane: Lane<T>, seed: T): Snapshot<T> {
    if 0 < lane.popped <= |lane.delivered| && lane.delivered[lane.popped - 1] < |lane.pushed|
    then lane.pushed[lane.delivered[lane.popped - 1]] else Snapshot(0, seed)
  }

  /** The writer has the last snapshot popped, and the file some snapshot it once had. */
  ghost predicate WriterKept<T>(lane: Lane<T>, seed: T) {
    && lane.writer.latest == LastPopped(lane, seed)
    && (lane.writer.latest == Snapshot(0, seed) || lane.writer.latest in lane.pushed)
    && lane.writer.writtenSeq == Some(lane.writer.file.seqNo)
    && (lane.writer.file == Snapshot(0, seed) || lane.writer.file in lane.pushed)
  }

  ghost predicate LaneKept<T>(lane: Lane<T>, seed: T) {
    RingKept(lane) && SlotKept(lane) && WriterKept(lane, seed)
  }

  lemma SupersedingKeeps<T>(lane: Lane<T>, seed: T, snapshot: Snapshot<T>)
    requires LaneKept(lane, seed)
    ensures LaneKept(Superseded(lane, snapshot), seed)
  {
    assert forall s :: s in lane.pushed ==> s in lane.pushed + [snapshot];
  }

  lemma HoldsMore<T>(ring: seq<Snapshot<T>>, pushed: seq<Snapshot<T>>, delivered: seq<nat>, popped: nat)
    requires Holds(ring, pushed, delivered, popped) && pushed != []
    ensures Holds(ring + [pushed[|pushed| - 1]], pushed, delivered + [|pushed| - 1], popped)
  {
  }

  lemma ForwardsMore(delivered: seq<nat>, count: nat)
    requires Forwards(delivered, count)
    ensures Forwards(delivered + [count], count + 1)
  {
  }

  /** The pending snapshot in the ring. */
  function Moved<T>(lane: Lane<T>): Lane<T>
    requires lane.sink.pending.Some? && lane.pushed != []
  {
    lane.(sink := lane.sink.(ring := lane.sink.ring + [lane.sink.pending.value], pending := None),
          delivered := lane.delivered + [|lane.pushed| - 1])
  }

  lemma RetryMoves<T>(capacity: nat, lane: Lane<T>)
    requires lane.sink.pending.Some? && |lane.sink.ring| < capacity && lane.pushed != []
    ensures Retried(capacity, lane) == Moved(lane)
  {
  }

  lemma MoveKeepsRing<T>(lane: Lane<T>)
    requires RingKept(lane) && SlotKept(lane) && lane.sink.pending.Some?
    ensures RingKept(Moved(lane))
  {
    HoldsMore(lane.sink.ring, lane.pushed, lane.delivered, lane.popped);
    ForwardsMore(lane.delivered, |lane.pushed| - 1);
    hide Holds, Forwards;
  }

  lemma MoveKeepsSlot<T>(lane: Lane<T>)
    requires SlotKept(lane) && lane.sink.pending.Some?
    ensures SlotKept(Moved(lane))
  {
    hide Forwards;
  }

  lemma MoveKeepsWriter<T>(lane: Lane<T>, seed: T)
    requires WriterKept(lane, seed) && lane.sink.pending.Some? && lane.pushed != [] && lane.popped <= |lane.delivered|
    ensures WriterKept(Moved(lane), seed)
  {
    assert forall i :: 0 <= i < |lane.delivered| ==> Moved(lane).delivered[i] == lane.delivered[i];
  }

  lemma RetryKeeps<T>(capacity: nat, lane: Lane<T>, seed: T)
    requires LaneKept(lane, seed)
    ensures LaneKept(Retried(capacity, lane), seed)
  {
    if lane.sink.pending.None? || |lane.sink.ring| >= capacity {
      return;
    }
    RetryMoves(capacity, lane);
    MoveKeepsRing(lane);
    MoveKeepsSlot(lane);
    MoveKeepsWriter(lane, seed);
    hide RingKept, SlotKept, WriterKept, Retried, Moved;
  }

  lemma PopKeeps<T>(lane: Lane<T>, seed: T)
    requires LaneKept(lane, seed)
    ensures LaneKept(Popped(lane), seed)
  {
    if lane.sink.ring != [] {
      assert lane.sink.ring[0] == lane.pushed[lane.delivered[lane.popped]];
    }
    hide Forwards;
  }

  lemma WriteKeeps<T>(lane: Lane<T>, seed: T, succeeds: bool)
    requires LaneKept(lane, seed)
    ensures LaneKept(lane.(writer := WriteIfChanged(lane.writer, succeeds)), seed)
  {
    hide Forwards, Holds;
  }

  lemma {:induction false} EveryRunIsKept<T>(capacity: nat, seed: T, steps: seq<Step<T>>)
    ensures LaneKept(Run(capacity, seed, steps), seed)
    decreases |steps|
  {
    if steps != [] {
      hide LaneKept;
      var before := Run(capacity, seed, steps[..|steps| - 1]);
      EveryRunIsKept(capacity, seed, steps[..|steps| - 1]);
      match steps[|steps| - 1]
      case Push(snapshot) =>
        SupersedingKeeps(before, seed, snapshot);
        RetryKeeps(capacity, Superseded(before, snapshot), seed);
      case Retry => RetryKeeps(capacity, before, seed);
      case Pop => PopKeeps(before, seed);
      case Write(succeeds) => WriteKeeps(before, seed, succeeds);
    }
  }

  // ---------------------------------------------------------------- the theorems

  /** Snapshots reach the writer as a subsequence of those pushed, in order, and every push is accounted for:
      delivered, superseded by a newer one, or pending. */
  lemma DeliveredInOrder<T>(capacity: nat, seed: T, steps: seq<Step<T>>)
    ensures var lane := Run(capacity, seed, steps);
            && Forwards(lane.delivered, |lane.pushed|)
            && Holds(lane.sink.ring, lane.pushed, lane.delivered, lane.popped)
            && lane.writer.latest == LastPopped(lane, seed)
            && |lane.pushed| == |lane.delivered| + lane.sink.superseded + (if lane.sink.pending.Some? then 1 else 0)
  {
    hide Run, Forwards, Holds;
    EveryRunIsKept(capacity, seed, steps);
  }

  /** The newest state a run produced: the last one pushed, or the one restored before any push. */
  function Newest<T>(pushed: seq<Snapshot<T>>, seed: T): Snapshot<T> {
    if pushed == [] then Snapshot(0, seed) else pushed[|pushed| - 1]
  }

  lemma QuietLane<T>(lane: Lane<T>, seed: T)
    requires LaneKept(lane, seed) && Numbered(lane.pushed)
    requires lane.sink.pending.None? && lane.sink.ring == []
    requires lane.writer.writtenSeq == Some(lane.writer.latest.seqNo)
    ensures lane.writer.file == Newest(lane.pushed, seed)
  {
    assert lane.writer.latest == Newest(lane.pushed, seed);
    hide Forwards;
  }

  /** When nothing is pending, the ring is empty and the last write took, the file is the newest state: no run
      goes quiet with a stale position on disk. */
  lemma QuietFileIsNewest<T>(capacity: nat, seed: T, steps: seq<Step<T>>)
    requires Numbered(Run(capacity, seed, steps).pushed)
    requires var lane := Run(capacity, seed, steps);
             && lane.sink.pending.None? && lane.sink.ring == []
             && lane.writer.writtenSeq == Some(lane.writer.latest.seqNo)
    ensures Run(capacity, seed, steps).writer.file == Newest(Run(capacity, seed, steps).pushed, seed)
  {
    hide Run, Numbered, LaneKept;
    EveryRunIsKept(capacity, seed, steps);
    QuietLane(Run(capacity, seed, steps), seed);
  }

  /** Pops until the ring is empty, a retry, one more pop, and a write that takes. */
  function Settling<T>(lane: Lane<T>): seq<Step<T>> {
    Pops(|lane.sink.ring|) + [Step<T>.Retry] + [Step<T>.Pop] + [Write(true)]
  }

  lemma Settles<T>(capacity: nat, lane: Lane<T>)
    requires capacity > 0
    ensures var settled := After(capacity, lane, Settling(lane));
            && settled.pushed == lane.pushed
            && settled.sink.pending.None? && settled.sink.ring == []
            && settled.writer.writtenSeq == Some(settled.writer.latest.seqNo)
  {
    var popped := Pops<T>(|lane.sink.ring|);
    PopsTakeTheNewest(capacity, lane, |lane.sink.ring|);
    LastStep(capacity, lane, popped, Step<T>.Retry);
    LastStep(capacity, lane, popped + [Step<T>.Retry], Step<T>.Pop);
    LastStep(capacity, lane, popped + [Step<T>.Retry] + [Step<T>.Pop], Write(true));
    hide After, Pops;
  }

  lemma {:induction false} RunsChain<T>(capacity: nat, lane: Lane<T>, first: seq<Step<T>>, rest: seq<Step<T>>)
    ensures After(capacity, After(capacity, lane, first), rest) == After(capacity, lane, first + rest)
    decreases |rest|
  {
    hide Next;
    if rest == [] {
      assert first + rest == first;
    } else {
      assert (first + rest)[..|first + rest| - 1] == first + rest[..|rest| - 1];
      RunsChain(capacity, lane, first, rest[..|rest| - 1]);
    }
  }

  /** Any run, however it superseded, filled the ring or failed to write, settles on the newest state once the
      writer catches up and a write takes. */
  lemma EveryRunCanSettle<T>(capacity: nat, seed: T, steps: seq<Step<T>>)
    requires capacity > 0 && Numbered(Run(capacity, seed, steps).pushed)
    ensures var settled := Run(capacity, seed, steps + Settling(Run(capacity, seed, steps)));
            && settled.pushed == Run(capacity, seed, steps).pushed
            && settled.writer.file == Newest(settled.pushed, seed)
  {
    var lane := Run(capacity, seed, steps);
    RunsChain(capacity, NewLane(seed), steps, Settling(lane));
    Settles(capacity, lane);
    hide After, Numbered, Settling, NewLane;
    QuietFileIsNewest(capacity, seed, steps + Settling(lane));
  }
}
