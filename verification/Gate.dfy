/** The link's soft state (src/link/subscribers.rs): the sequence gate that drops duplicates, reorders and
    frames of a dead boot, and the table of live subscribers. Neither reads a clock. */
module Gate {
  import opened Common
  import opened Frame

  const LINK_MAX_SUBSCRIBERS: nat := 16
  const LINK_MAX_GATE_KEYS: nat := LINK_MAX_SUBSCRIBERS * 4
  const LINK_SUBSCRIPTION_TTL: int := 5_000_000

  /** What the gate reads of an envelope. */
  datatype Origin = Origin(sender: int, topic: int, bootTs: int, seqNo: int)

  datatype Key = Key(sender: int, topic: int)

  datatype GateSlot = GateSlot(key: Key, bootTs: int, lastSeq: int, lastSeenTs: int)

  datatype Verdict = Accepted | Restarted | Stale(lastSeq: int) | StaleBoot(trackedBootTs: int) | Untracked

  function KeyOf(o: Origin): Key {
    Key(o.sender, o.topic)
  }

  predicate IsAccepted(v: Verdict) {
    v.Accepted? || v.Restarted?
  }

  // ---------------------------------------------------------------- the gate, as a value

  function Find(slots: seq<GateSlot>, key: Key): (index: Option<nat>)
    ensures index.Some? ==> index.value < |slots| && slots[index.value].key == key
    ensures index.None? ==> forall i :: 0 <= i < |slots| ==> slots[i].key != key
  {
    if slots == [] then None
    else if slots[0].key == key then Some(0)
    else
      match Find(slots[1..], key)
      case None => None
      case Some(i) => Some(i + 1)
  }

  /** The first of the slots heard from longest ago. */
  function Stalest(slots: seq<GateSlot>): (index: nat)
    requires slots != []
    ensures index < |slots|
    ensures forall i :: 0 <= i < |slots| ==> slots[index].lastSeenTs <= slots[i].lastSeenTs
    ensures forall i :: 0 <= i < index ==> slots[index].lastSeenTs < slots[i].lastSeenTs
  {
    if |slots| == 1 then 0
    else
      var rest := 1 + Stalest(slots[1..]);
      if slots[0].lastSeenTs <= slots[rest].lastSeenTs then 0 else rest
  }

  function StalestExpired(slots: seq<GateSlot>, now: int): Option<nat> {
    if slots == [] then None
    else
      var index := Stalest(slots);
      if now - slots[index].lastSeenTs >= LINK_SUBSCRIPTION_TTL then Some(index) else None
  }

  function Track(slots: seq<GateSlot>, o: Origin, now: int): (seq<GateSlot>, Verdict) {
    var slot := GateSlot(KeyOf(o), o.bootTs, o.seqNo, now);
    if |slots| < LINK_MAX_GATE_KEYS then (slots + [slot], Accepted)
    else
      match StalestExpired(slots, now)
      case None => (slots, Untracked)
      case Some(index) => (slots[index := slot], Accepted)
  }

  function Admit(slots: seq<GateSlot>, o: Origin, now: int): (seq<GateSlot>, Verdict) {
    match Find(slots, KeyOf(o))
    case None => Track(slots, o, now)
    case Some(index) =>
      var seen := slots[index].(lastSeenTs := now);
      if o.bootTs < seen.bootTs then (slots[index := seen], StaleBoot(seen.bootTs))
      else if o.bootTs > seen.bootTs then (slots[index := seen.(bootTs := o.bootTs, lastSeq := o.seqNo)], Restarted)
      else if o.seqNo <= seen.lastSeq then (slots[index := seen], Stale(seen.lastSeq))
      else (slots[index := seen.(lastSeq := o.seqNo)], Accepted)
  }

  // ---------------------------------------------------------------- what one arrival does

  ghost predicate Sound(slots: seq<GateSlot>) {
    && |slots| <= LINK_MAX_GATE_KEYS
    && forall i, j :: 0 <= i < j < |slots| ==> slots[i].key != slots[j].key
  }

  function SlotOf(slots: seq<GateSlot>, key: Key): Option<GateSlot> {
    match Find(slots, key) case None => None case Some(i) => Some(slots[i])
  }

  /** Lexicographic order on a stream's position. */
  predicate Before(bootA: int, seqA: int, bootB: int, seqB: int) {
    bootA < bootB || (bootA == bootB && seqA < seqB)
  }

  lemma SlotAt(slots: seq<GateSlot>, i: nat)
    requires Sound(slots) && i < |slots|
    ensures SlotOf(slots, slots[i].key) == Some(slots[i])
  {
  }

  lemma SlotUpdated(slots: seq<GateSlot>, i: nat, slot: GateSlot, key: Key)
    requires Sound(slots) && i < |slots| && (slot.key == slots[i].key || SlotOf(slots, slot.key).None?)
    ensures Sound(slots[i := slot])
    ensures SlotOf(slots[i := slot], key) ==
            if key == slot.key then Some(slot) else if key == slots[i].key then None else SlotOf(slots, key)
  {
    var slots' := slots[i := slot];
    assert Sound(slots');
    if key == slot.key {
      SlotAt(slots', i);
      assert slots'[i].key == key;
    } else if key != slots[i].key && SlotOf(slots, key).Some? {
      var k := Find(slots, key).value;
      assert slots'[k] == slots[k];
      SlotAt(slots', k);
    }
  }

  lemma SlotAppended(slots: seq<GateSlot>, slot: GateSlot, key: Key)
    requires Sound(slots) && |slots| < LINK_MAX_GATE_KEYS && SlotOf(slots, slot.key).None?
    ensures Sound(slots + [slot])
    ensures SlotOf(slots + [slot], key) == if key == slot.key then Some(slot) else SlotOf(slots, key)
  {
    var slots' := slots + [slot];
    if key == slot.key {
      SlotAt(slots', |slots|);
    } else if SlotOf(slots, key).Some? {
      var k := Find(slots, key).value;
      assert slots'[k] == slots[k];
      SlotAt(slots', k);
    }
  }

  /** The arriving frame's own stream: a tracked one is accepted exactly when the frame is ahead of it, and
      then moves to the frame; otherwise only the time it was heard changes. */
  lemma OwnStream(slots: seq<GateSlot>, o: Origin, now: int)
    requires Sound(slots)
    ensures var (slots', verdict) := Admit(slots, o, now);
            var before, after := SlotOf(slots, KeyOf(o)), SlotOf(slots', KeyOf(o));
            && Sound(slots')
            && (before.Some? ==>
                  && after.Some? && after.value.lastSeenTs == now
                  && (IsAccepted(verdict) <==> Before(before.value.bootTs, before.value.lastSeq, o.bootTs, o.seqNo))
                  && (!IsAccepted(verdict) ==> after.value == before.value.(lastSeenTs := now)))
            && (IsAccepted(verdict) ==> after == Some(GateSlot(KeyOf(o), o.bootTs, o.seqNo, now)))
            && (before.None? && !IsAccepted(verdict) ==> slots' == slots)
  {
    var key := KeyOf(o);
    var slot := GateSlot(key, o.bootTs, o.seqNo, now);
    var found := Find(slots, key);
    if found.Some? {
      var slots' := Admit(slots, o, now).0;
      SlotUpdated(slots, found.value, slots'[found.value], key);
    } else if |slots| < LINK_MAX_GATE_KEYS {
      SlotAppended(slots, slot, key);
    } else if StalestExpired(slots, now).Some? {
      SlotUpdated(slots, StalestExpired(slots, now).value, slot, key);
    }
  }

  /** A frame of a stream the gate does not know is accepted exactly when a slot is free or some stream has been silent
      for a whole TTL. A full gate then gives up the stream heard from longest ago, and no other slot changes. */
  lemma NewStreamsAreAcceptedExactly(slots: seq<GateSlot>, o: Origin, now: int)
    requires Sound(slots) && SlotOf(slots, KeyOf(o)).None?
    ensures var (slots', verdict) := Admit(slots, o, now);
            var slot := GateSlot(KeyOf(o), o.bootTs, o.seqNo, now);
            && (verdict == Accepted <==> |slots| < LINK_MAX_GATE_KEYS || exists i :: Silent(slots, i, now))
            && (verdict != Accepted ==> verdict == Untracked && slots' == slots)
            && (|slots| < LINK_MAX_GATE_KEYS ==> slots' == slots + [slot])
            && (|slots| == LINK_MAX_GATE_KEYS && verdict == Accepted ==>
                  exists i :: GivesUp(slots, i, now, slots', slot))
            && (Evicts(slots, o, verdict) <==> |slots| == LINK_MAX_GATE_KEYS && verdict == Accepted)
  {
    if |slots| == LINK_MAX_GATE_KEYS {
      var i := Stalest(slots);
      if now - slots[i].lastSeenTs >= LINK_SUBSCRIPTION_TTL {
        assert Silent(slots, i, now);
        assert GivesUp(slots, i, now, Admit(slots, o, now).0, GateSlot(KeyOf(o), o.bootTs, o.seqNo, now));
      }
    }
  }

  predicate Silent(slots: seq<GateSlot>, i: int, now: int) {
    0 <= i < |slots| && now - slots[i].lastSeenTs >= LINK_SUBSCRIPTION_TTL
  }

  /** The slot given up is the first of the stalest and has been silent for a TTL; the others stay as they are. */
  predicate GivesUp(slots: seq<GateSlot>, i: int, now: int, slots': seq<GateSlot>, slot: GateSlot) {
    && Silent(slots, i, now)
    && (forall j :: 0 <= j < |slots| ==> slots[i].lastSeenTs <= slots[j].lastSeenTs)
    && (forall j :: 0 <= j < i ==> slots[i].lastSeenTs < slots[j].lastSeenTs)
    && slots' == slots[i := slot]
  }

  /** What a tracked stream is told: a newer boot restarts it, an older one is named stale, and within a boot a frame
      goes through or is told the last that did. */
  lemma TrackedVerdictsSayWhy(slots: seq<GateSlot>, o: Origin, now: int)
    requires Sound(slots) && SlotOf(slots, KeyOf(o)).Some?
    ensures var held, verdict := SlotOf(slots, KeyOf(o)).value, Admit(slots, o, now).1;
            && (verdict == Restarted <==> o.bootTs > held.bootTs)
            && (verdict == Accepted <==> o.bootTs == held.bootTs && o.seqNo > held.lastSeq)
            && (verdict.StaleBoot? <==> o.bootTs < held.bootTs)
            && (verdict.StaleBoot? ==> verdict == StaleBoot(held.bootTs))
            && (verdict.Stale? ==> verdict == Stale(held.lastSeq))
  {
  }

  /** Every other stream: untouched, unless the gate was full, the arrival was new to it, and this stream had
      been silent for a whole TTL. */
  lemma OtherStreams(slots: seq<GateSlot>, o: Origin, now: int, key: Key)
    requires Sound(slots) && key != KeyOf(o)
    ensures var after := SlotOf(Admit(slots, o, now).0, key);
            var before := SlotOf(slots, key);
            || after == before
            || (after.None? && before.Some? && now - before.value.lastSeenTs >= LINK_SUBSCRIPTION_TTL
                && |slots| == LINK_MAX_GATE_KEYS && SlotOf(slots, KeyOf(o)).None?)
  {
    var slot := GateSlot(KeyOf(o), o.bootTs, o.seqNo, now);
    var found := Find(slots, KeyOf(o));
    if found.Some? {
      var slots' := Admit(slots, o, now).0;
      SlotUpdated(slots, found.value, slots'[found.value], key);
    } else if |slots| < LINK_MAX_GATE_KEYS {
      SlotAppended(slots, slot, key);
    } else if StalestExpired(slots, now).Some? {
      var index := StalestExpired(slots, now).value;
      SlotUpdated(slots, index, slot, key);
      SlotAt(slots, index);
    }
  }

  // ---------------------------------------------------------------- runs of arrivals

  datatype Arrival = Arrival(origin: Origin, now: int)

  /** The gate after the first `n` arrivals. */
  function GateAfter(arrivals: seq<Arrival>, n: nat): seq<GateSlot>
    requires n <= |arrivals|
  {
    if n == 0 then [] else Admit(GateAfter(arrivals, n - 1), arrivals[n - 1].origin, arrivals[n - 1].now).0
  }

  function VerdictOn(arrivals: seq<Arrival>, i: nat): Verdict
    requires i < |arrivals|
  {
    Admit(GateAfter(arrivals, i), arrivals[i].origin, arrivals[i].now).1
  }

  /** Slots are unique per stream and never exceed the gate's capacity, over any run. */
  lemma {:induction false} GateStaysSound(arrivals: seq<Arrival>, n: nat)
    requires n <= |arrivals|
    ensures Sound(GateAfter(arrivals, n))
  {
    if n > 0 {
      GateStaysSound(arrivals, n - 1);
      OwnStream(GateAfter(arrivals, n - 1), arrivals[n - 1].origin, arrivals[n - 1].now);
    }
  }

  ghost predicate TrackedThroughout(arrivals: seq<Arrival>, key: Key, first: nat, last: nat)
    requires first <= last <= |arrivals|
  {
    forall m :: first <= m <= last ==> SlotOf(GateAfter(arrivals, m), key).Some?
  }

  lemma ArrivalAdvances(slots: seq<GateSlot>, arrival: Arrival, key: Key)
    requires Sound(slots) && SlotOf(slots, key).Some?
    requires SlotOf(Admit(slots, arrival.origin, arrival.now).0, key).Some?
    ensures var a := SlotOf(slots, key).value;
            var b := SlotOf(Admit(slots, arrival.origin, arrival.now).0, key).value;
            !Before(b.bootTs, b.lastSeq, a.bootTs, a.lastSeq)
  {
    hide SlotOf, Admit, Sound;
    if key == KeyOf(arrival.origin) {
      OwnStream(slots, arrival.origin, arrival.now);
    } else {
      OtherStreams(slots, arrival.origin, arrival.now, key);
    }
  }

  /** While a stream stays tracked, its position only moves forward. */
  lemma {:induction false} PositionAdvances(arrivals: seq<Arrival>, key: Key, first: nat, last: nat)
    requires first <= last <= |arrivals| && TrackedThroughout(arrivals, key, first, last)
    ensures var a := SlotOf(GateAfter(arrivals, first), key).value;
            var b := SlotOf(GateAfter(arrivals, last), key).value;
            !Before(b.bootTs, b.lastSeq, a.bootTs, a.lastSeq)
    decreases last - first
  {
    hide SlotOf, Admit, Sound;
    if first < last {
      assert SlotOf(GateAfter(arrivals, last), key).Some? && SlotOf(GateAfter(arrivals, last - 1), key).Some?;
      PositionAdvances(arrivals, key, first, last - 1);
      GateStaysSound(arrivals, last - 1);
      ArrivalAdvances(GateAfter(arrivals, last - 1), arrivals[last - 1], key);
    }
  }

  /** Within one stream, until its slot is evicted, accepted frames strictly increase in boot then sequence:
      no duplicate, reorder or dead boot gets through. */
  lemma AcceptedFramesIncrease(arrivals: seq<Arrival>, i: nat, j: nat)
    requires i < j < |arrivals|
    requires KeyOf(arrivals[i].origin) == KeyOf(arrivals[j].origin)
    requires IsAccepted(VerdictOn(arrivals, i)) && IsAccepted(VerdictOn(arrivals, j))
    requires TrackedThroughout(arrivals, KeyOf(arrivals[i].origin), i + 1, j)
    ensures Before(arrivals[i].origin.bootTs, arrivals[i].origin.seqNo,
                   arrivals[j].origin.bootTs, arrivals[j].origin.seqNo)
  {
    hide SlotOf, Admit;
    GateStaysSound(arrivals, i);
    OwnStream(GateAfter(arrivals, i), arrivals[i].origin, arrivals[i].now);
    PositionAdvances(arrivals, KeyOf(arrivals[i].origin), i + 1, j);
    GateStaysSound(arrivals, j);
    OwnStream(GateAfter(arrivals, j), arrivals[j].origin, arrivals[j].now);
  }

  ghost predicate ClockNeverStepsBack(arrivals: seq<Arrival>) {
    forall i, j :: 0 <= i <= j < |arrivals| ==> arrivals[i].now <= arrivals[j].now
  }

  /** A stream heard from is remembered for a whole TTL after. */
  lemma {:induction false} HeardIsTracked(arrivals: seq<Arrival>, i: nat, n: nat)
    requires i < n <= |arrivals| && ClockNeverStepsBack(arrivals)
    requires SlotOf(GateAfter(arrivals, i + 1), KeyOf(arrivals[i].origin)).Some?
    requires arrivals[n - 1].now - arrivals[i].now < LINK_SUBSCRIPTION_TTL
    ensures var slot := SlotOf(GateAfter(arrivals, n), KeyOf(arrivals[i].origin));
            slot.Some? && slot.value.lastSeenTs >= arrivals[i].now
    decreases n
  {
    hide SlotOf, Admit;
    var key := KeyOf(arrivals[i].origin);
    GateStaysSound(arrivals, n - 1);
    if n == i + 1 {
      OwnStream(GateAfter(arrivals, i), arrivals[i].origin, arrivals[i].now);
    } else {
      HeardIsTracked(arrivals, i, n - 1);
      var last := arrivals[n - 1];
      if key == KeyOf(last.origin) {
        OwnStream(GateAfter(arrivals, n - 1), last.origin, last.now);
      } else {
        OtherStreams(GateAfter(arrivals, n - 1), last.origin, last.now, key);
      }
    }
  }

  /** So two frames of one stream accepted less than a TTL apart are always in order, whatever else arrived
      and however full the gate was. */
  lemma InOrderWithinTtl(arrivals: seq<Arrival>, i: nat, j: nat)
    requires i < j < |arrivals| && ClockNeverStepsBack(arrivals)
    requires KeyOf(arrivals[i].origin) == KeyOf(arrivals[j].origin)
    requires IsAccepted(VerdictOn(arrivals, i)) && IsAccepted(VerdictOn(arrivals, j))
    requires arrivals[j].now - arrivals[i].now < LINK_SUBSCRIPTION_TTL
    ensures Before(arrivals[i].origin.bootTs, arrivals[i].origin.seqNo,
                   arrivals[j].origin.bootTs, arrivals[j].origin.seqNo)
  {
    hide SlotOf, Admit;
    GateStaysSound(arrivals, i);
    OwnStream(GateAfter(arrivals, i), arrivals[i].origin, arrivals[i].now);
    forall m | i + 1 <= m <= j
      ensures SlotOf(GateAfter(arrivals, m), KeyOf(arrivals[i].origin)).Some?
    {
      HeardIsTracked(arrivals, i, m);
    }
    AcceptedFramesIncrease(arrivals, i, j);
  }

  /** A new stream let into a full gate took another's slot. */
  predicate Evicts(slots: seq<GateSlot>, o: Origin, verdict: Verdict) {
    Find(slots, KeyOf(o)).None? && |slots| >= LINK_MAX_GATE_KEYS && verdict.Accepted?
  }

  class SequenceGate {
    var slots: seq<GateSlot>
    var restarts: nat
    var stale: nat
    var staleBoots: nat
    var evicted: nat
    var untracked: nat

    constructor ()
      ensures slots == [] && restarts == stale == staleBoots == evicted == untracked == 0
    {
      slots := [];
      restarts, stale, staleBoots, evicted, untracked := 0, 0, 0, 0, 0;
    }

    method AdmitFrame(o: Origin, now: int) returns (verdict: Verdict)
      requires Sound(slots)
      modifies this
      ensures (slots, verdict) == Admit(old(slots), o, now) && Sound(slots)
      ensures evicted == old(evicted) + (if Evicts(old(slots), o, verdict) then 1 else 0)
      ensures restarts == old(restarts) + (if verdict.Restarted? then 1 else 0)
      ensures stale == old(stale) + (if verdict.Stale? then 1 else 0)
      ensures staleBoots == old(staleBoots) + (if verdict.StaleBoot? then 1 else 0)
      ensures untracked == old(untracked) + (if verdict.Untracked? then 1 else 0)
    {
      OwnStream(slots, o, now);
      var found := Find(slots, KeyOf(o));
      if found.None? {
        verdict := TrackFrame(o, now);
        return;
      }
      var index := found.value;
      ghost var before := slots;
      slots := slots[index := slots[index].(lastSeenTs := now)];
      var tracked := slots[index];
      if o.bootTs < tracked.bootTs {
        staleBoots := staleBoots + 1;
        return StaleBoot(tracked.bootTs);
      }
      if o.bootTs > tracked.bootTs {
        slots := slots[index := slots[index].(bootTs := o.bootTs, lastSeq := o.seqNo)];
        restarts := restarts + 1;
        assert slots == before[index := tracked.(bootTs := o.bootTs, lastSeq := o.seqNo)];
        return Restarted;
      }
      if o.seqNo <= tracked.lastSeq {
        stale := stale + 1;
        return Stale(tracked.lastSeq);
      }
      slots := slots[index := slots[index].(lastSeq := o.seqNo)];
      assert slots == before[index := tracked.(lastSeq := o.seqNo)];
      verdict := Accepted;
    }

    method TrackFrame(o: Origin, now: int) returns (verdict: Verdict)
      requires Find(slots, KeyOf(o)).None?
      modifies this`slots, this`evicted, this`untracked
      ensures (slots, verdict) == Track(old(slots), o, now) && (verdict.Accepted? || verdict.Untracked?)
      ensures evicted == old(evicted) + (if Evicts(old(slots), o, verdict) then 1 else 0)
      ensures untracked == old(untracked) + (if verdict.Untracked? then 1 else 0)
    {
      var slot := GateSlot(KeyOf(o), o.bootTs, o.seqNo, now);
      if |slots| < LINK_MAX_GATE_KEYS {
        slots := slots + [slot];
        return Accepted;
      }
      var stalest := StalestExpired(slots, now);
      if stalest.None? {
        untracked := untracked + 1;
        return Untracked;
      }
      slots := slots[stalest.value := slot];
      evicted := evicted + 1;
      verdict := Accepted;
    }
  }

  // ---------------------------------------------------------------- subscribers

  datatype Subscriber = Subscriber(address: int, topics: TopicSet, expiresTs: int)

  datatype RefreshOutcome = Added | Renewed | Rejected

  ghost predicate SoundTable(entries: seq<Subscriber>) {
    && |entries| <= LINK_MAX_SUBSCRIBERS
    && forall i, j :: 0 <= i < j < |entries| ==> entries[i].address != entries[j].address
  }

  lemma RenewedEntries(live: seq<Subscriber>, i: nat, entry: Subscriber)
    requires SoundTable(live) && i < |live| && live[i].address == entry.address
    ensures SoundTable(live[i := entry])
    ensures forall e :: e in live[i := entry] <==> e == entry || (e in live && e.address != entry.address)
  {
    var after := live[i := entry];
    assert after[i] == entry;
    forall e | e in live && e.address != entry.address
      ensures e in after
    {
      var k :| 0 <= k < |live| && live[k] == e;
      assert after[k] == e;
    }
  }

  class SubscriberTable {
    var entries: seq<Subscriber>

    constructor ()
      ensures entries == []
    {
      entries := [];
    }

    /** A datagram inserts or renews its address for a TTL; the aged are dropped first; a full table refuses
        newcomers and never drops a live subscriber for one. */
    method Refresh(address: int, topics: TopicSet, now: int) returns (outcome: RefreshOutcome)
      requires SoundTable(entries)
      modifies this
      ensures SoundTable(entries)
      ensures outcome.Renewed? <==> exists e :: e in old(entries) && e.expiresTs > now && e.address == address
      ensures outcome.Rejected? ==>
                && |entries| == LINK_MAX_SUBSCRIBERS
                && forall e :: e in entries <==> e in old(entries) && e.expiresTs > now
      ensures !outcome.Rejected? ==>
                forall e :: e in entries <==>
                  || e == Subscriber(address, topics, now + LINK_SUBSCRIPTION_TTL)
                  || (e in old(entries) && e.expiresTs > now && e.address != address)
    {
      var isLive := (entry: Subscriber) => entry.expiresTs > now;
      FilterKeeps(isLive, entries);
      FilterKeepsDistinct(isLive, entries);
      entries := Filter(isLive, entries);
      ghost var live := entries;
      var entry := Subscriber(address, topics, now + LINK_SUBSCRIPTION_TTL);
      for i := 0 to |entries|
        invariant entries == live
        invariant forall k :: 0 <= k < i ==> entries[k].address != address
      {
        if entries[i].address == address {
          assert live[i] in live;
          entries := entries[i := entry];
          RenewedEntries(live, i, entry);
          return Renewed;
        }
      }
      if |entries| == LINK_MAX_SUBSCRIBERS {
        return Rejected;
      }
      entries := entries + [entry];
      outcome := Added;
    }
  }

  lemma {:induction false} FilterKeepsDistinct(keep: Subscriber -> bool, s: seq<Subscriber>)
    requires SoundTable(s)
    ensures SoundTable(Filter(keep, s))
  {
    if s != [] {
      FilterKeepsDistinct(keep, s[1..]);
      FilterKeeps(keep, s[1..]);
      FilterKeeps(keep, s);
      var rest := Filter(keep, s[1..]);
      forall j | 0 <= j < |rest|
        ensures rest[j].address != s[0].address
      {
        assert rest[j] in s[1..];
      }
    }
  }
}
