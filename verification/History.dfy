/** Rolling storage of fixed capacity (src/workstation/history.rs): a ring that forgets its oldest items, and,
    for items that carry an index, a store that keeps the highest. */
module History {
  import opened Common

  // ---------------------------------------------------------------- what "the highest" means

  /** How many items have an index of at least `bound`. */
  function CountAtLeast<T>(s: seq<T>, indexOf: T -> nat, bound: nat): nat {
    if s == [] then 0 else (if indexOf(s[0]) >= bound then 1 else 0) + CountAtLeast(s[1..], indexOf, bound)
  }

  /** `kept` are items of `pool`, and its indexes are, as a multiset, the `n` highest of the pool's: above
      every bound it has as many as the pool has, up to `n`. */
  ghost predicate KeepsHighest<T(!new)>(n: nat, pool: seq<T>, kept: seq<T>, indexOf: T -> nat) {
    && multiset(kept) <= multiset(pool)
    && forall bound: nat {:trigger CountAtLeast(kept, indexOf, bound)} ::
         CountAtLeast(kept, indexOf, bound) == Min(n, CountAtLeast(pool, indexOf, bound))
  }

  ghost predicate InIndexOrder<T>(s: seq<T>, indexOf: T -> nat) {
    forall i, j :: 0 <= i < j < |s| ==> indexOf(s[i]) <= indexOf(s[j])
  }

  lemma {:induction false} CountConcat<T>(a: seq<T>, b: seq<T>, indexOf: T -> nat, bound: nat)
    ensures CountAtLeast(a + b, indexOf, bound) == CountAtLeast(a, indexOf, bound) + CountAtLeast(b, indexOf, bound)
  {
    if a == [] {
      assert a + b == b;
    } else {
      assert (a + b)[1..] == a[1..] + b;
      CountConcat(a[1..], b, indexOf, bound);
    }
  }

  lemma {:induction false} CountBounds<T>(s: seq<T>, indexOf: T -> nat, bound: nat)
    ensures CountAtLeast(s, indexOf, bound) <= |s|
    ensures CountAtLeast(s, indexOf, bound) == |s| <==> forall x :: x in s ==> indexOf(x) >= bound
  {
    if s != [] {
      CountBounds(s[1..], indexOf, bound);
      assert s == [s[0]] + s[1..];
    }
  }

  // ---------------------------------------------------------------- the pieces a splice is made of

  /** Position of the first item with the lowest index. */
  function LowestPosition<T>(s: seq<T>, indexOf: T -> nat): (position: nat)
    requires s != []
    ensures position < |s|
    ensures forall x :: x in s ==> indexOf(s[position]) <= indexOf(x)
    ensures forall k :: 0 <= k < position ==> indexOf(s[k]) > indexOf(s[position])
  {
    if |s| == 1 then 0
    else
      var rest := 1 + LowestPosition(s[1..], indexOf);
      assert s == [s[0]] + s[1..];
      if indexOf(s[0]) <= indexOf(s[rest]) then 0 else rest
  }

  /** A full store gives up its lowest item for a higher one, and turns away an item below all it holds. */
  function InsertedWithin<T>(capacity: nat, slots: seq<T>, item: T, indexOf: T -> nat): seq<T> {
    if |slots| < capacity then slots + [item]
    else if slots == [] then slots
    else
      var position := LowestPosition(slots, indexOf);
      if indexOf(item) < indexOf(slots[position]) then slots else RemoveAt(slots, position) + [item]
  }

  /** A stable sort by index. */
  function Placed<T>(s: seq<T>, item: T, indexOf: T -> nat): seq<T> {
    if s == [] || indexOf(s[|s| - 1]) <= indexOf(item) then s + [item]
    else Placed(s[..|s| - 1], item, indexOf) + [s[|s| - 1]]
  }

  function SortedByIndex<T>(s: seq<T>, indexOf: T -> nat): seq<T>
    decreases |s|
  {
    if s == [] then [] else Placed(SortedByIndex(s[..|s| - 1], indexOf), s[|s| - 1], indexOf)
  }

  lemma AppendsInOrder<T>(placed: seq<T>, front: seq<T>, item: T, last: T, indexOf: T -> nat)
    requires InIndexOrder(placed, indexOf) && multiset(placed) == multiset(front) + multiset{item}
    requires InIndexOrder(front + [last], indexOf) && indexOf(item) < indexOf(last)
    ensures InIndexOrder(placed + [last], indexOf)
  {
    forall i | 0 <= i < |placed|
      ensures indexOf(placed[i]) <= indexOf(last)
    {
      assert placed[i] in multiset(placed);
      if placed[i] != item {
        var k :| 0 <= k < |front| && front[k] == placed[i];
        assert (front + [last])[k] == placed[i] && (front + [last])[|front|] == last;
      }
    }
  }

  lemma AppendsAtEnd<T>(s: seq<T>, item: T, indexOf: T -> nat)
    requires InIndexOrder(s, indexOf) && (s == [] || indexOf(s[|s| - 1]) <= indexOf(item))
    ensures InIndexOrder(s + [item], indexOf)
  {
  }

  lemma FrontInOrder<T>(s: seq<T>, indexOf: T -> nat)
    requires InIndexOrder(s, indexOf) && s != []
    ensures InIndexOrder(s[..|s| - 1], indexOf)
  {
  }

  lemma {:induction false} PlacedIsOrdered<T>(s: seq<T>, item: T, indexOf: T -> nat)
    requires InIndexOrder(s, indexOf)
    ensures InIndexOrder(Placed(s, item, indexOf), indexOf)
    ensures multiset(Placed(s, item, indexOf)) == multiset(s) + multiset{item}
    decreases |s|
  {
    hide InIndexOrder;
    if s != [] && indexOf(s[|s| - 1]) > indexOf(item) {
      var front, last := s[..|s| - 1], s[|s| - 1];
      assert s == front + [last];
      FrontInOrder(s, indexOf);
      PlacedIsOrdered(front, item, indexOf);
      AppendsInOrder(Placed(front, item, indexOf), front, item, last, indexOf);
    } else {
      AppendsAtEnd(s, item, indexOf);
    }
  }

  lemma {:induction false} SortIsOrdered<T>(s: seq<T>, indexOf: T -> nat)
    ensures InIndexOrder(SortedByIndex(s, indexOf), indexOf)
    ensures multiset(SortedByIndex(s, indexOf)) == multiset(s)
    decreases |s|
  {
    if s != [] {
      SortIsOrdered(s[..|s| - 1], indexOf);
      PlacedIsOrdered(SortedByIndex(s[..|s| - 1], indexOf), s[|s| - 1], indexOf);
      assert s == s[..|s| - 1] + [s[|s| - 1]];
    }
  }

  lemma CountRemoved<T>(s: seq<T>, i: nat, indexOf: T -> nat, bound: nat)
    requires i < |s|
    ensures CountAtLeast(RemoveAt(s, i), indexOf, bound)
         == CountAtLeast(s, indexOf, bound) - (if indexOf(s[i]) >= bound then 1 else 0)
  {
    var front, back := s[..i], s[i + 1..];
    assert s == front + ([s[i]] + back) && ([s[i]] + back)[1..] == back;
    CountConcat(front, [s[i]] + back, indexOf, bound);
    CountConcat(front, back, indexOf, bound);
  }

  lemma RemovedItems<T>(s: seq<T>, i: nat)
    requires i < |s|
    ensures multiset(RemoveAt(s, i)) == multiset(s) - multiset{s[i]}
  {
    assert s == s[..i] + ([s[i]] + s[i + 1..]);
  }

  lemma RemovedFront<T>(s: seq<T>)
    requires s != []
    ensures RemoveAt(s, 0) == s[1..]
  {
  }

  /** Counting sees only the multiset of items. */
  lemma {:induction false} CountIgnoresOrder<T>(a: seq<T>, b: seq<T>, indexOf: T -> nat, bound: nat)
    requires multiset(a) == multiset(b)
    ensures CountAtLeast(a, indexOf, bound) == CountAtLeast(b, indexOf, bound)
    decreases |a|
  {
    hide RemoveAt;
    if a == [] {
      assert |multiset(b)| == 0;
    } else {
      assert a[0] in multiset(b);
      var i :| 0 <= i < |b| && b[i] == a[0];
      RemovedItems(b, i);
      RemovedItems(a, 0);
      RemovedFront(a);
      CountIgnoresOrder(a[1..], RemoveAt(b, i), indexOf, bound);
      CountRemoved(b, i, indexOf, bound);
    }
  }

  lemma CountSnoc<T>(s: seq<T>, item: T, indexOf: T -> nat, bound: nat)
    ensures CountAtLeast(s + [item], indexOf, bound)
         == CountAtLeast(s, indexOf, bound) + (if indexOf(item) >= bound then 1 else 0)
  {
    CountConcat(s, [item], indexOf, bound);
    assert [item][1..] == [];
  }

  /** Streaming one more item through a bounded store keeps it the highest of everything streamed. */
  lemma InsertKeepsHighest<T(!new)>(capacity: nat, pool: seq<T>, slots: seq<T>, item: T, indexOf: T -> nat)
    requires KeepsHighest(capacity, pool, slots, indexOf)
    ensures KeepsHighest(capacity, pool + [item], InsertedWithin(capacity, slots, item, indexOf), indexOf)
  {
    var slots' := InsertedWithin(capacity, slots, item, indexOf);
    InsertKeepsItems(capacity, pool, slots, item, indexOf);
    CountBounds(slots, indexOf, 0);
    forall bound: nat
      ensures CountAtLeast(slots', indexOf, bound) == Min(capacity, CountAtLeast(pool + [item], indexOf, bound))
    {
      CountSnoc(pool, item, indexOf, bound);
      CountBounds(slots, indexOf, bound);
      if |slots| < capacity {
        CountSnoc(slots, item, indexOf, bound);
        CountShort(capacity, pool, slots, indexOf, bound);
      } else if slots != [] {
        var position := LowestPosition(slots, indexOf);
        CountRemoved(slots, position, indexOf, bound);
        CountSnoc(RemoveAt(slots, position), item, indexOf, bound);
        assert slots[position] in slots;
      }
    }
  }

  /** A store that is not full has dropped nothing. */
  lemma CountShort<T(!new)>(capacity: nat, pool: seq<T>, slots: seq<T>, indexOf: T -> nat, bound: nat)
    requires KeepsHighest(capacity, pool, slots, indexOf) && |slots| < capacity
    ensures CountAtLeast(slots, indexOf, bound) == CountAtLeast(pool, indexOf, bound)
  {
    CountBounds(slots, indexOf, bound);
    assert CountAtLeast(slots, indexOf, bound) == Min(capacity, CountAtLeast(pool, indexOf, bound));
  }

  lemma InsertKeepsItems<T>(capacity: nat, pool: seq<T>, slots: seq<T>, item: T, indexOf: T -> nat)
    requires multiset(slots) <= multiset(pool)
    ensures multiset(InsertedWithin(capacity, slots, item, indexOf)) <= multiset(pool + [item])
  {
    assert multiset(pool + [item]) == multiset(pool) + multiset{item};
    if |slots| >= capacity && slots != [] {
      var i := LowestPosition(slots, indexOf);
      hide LowestPosition, RemoveAt;
      RemovedItems(slots, i);
      assert multiset(RemoveAt(slots, i) + [item]) == multiset(RemoveAt(slots, i)) + multiset{item};
    }
  }

  /** Into a full store an item goes if some held index is not above its own, behind the rest; the earliest of the
      lowest items makes room for it. */
  lemma NewcomersReplaceTheLowest<T>(capacity: nat, slots: seq<T>, item: T, indexOf: T -> nat, lowest: nat)
    requires |slots| == capacity && lowest < capacity
    requires forall k :: 0 <= k < |slots| ==>
               && indexOf(slots[k]) >= indexOf(slots[lowest])
               && (k < lowest ==> indexOf(slots[k]) > indexOf(slots[lowest]))
    ensures InsertedWithin(capacity, slots, item, indexOf)
         == if indexOf(item) >= indexOf(slots[lowest]) then slots[..lowest] + slots[lowest + 1..] + [item] else slots
  {
    assert slots[lowest] in slots;
  }

  /** Items of one index keep their order under the sort. */
  lemma {:induction false} SortIsStable<T>(s: seq<T>, indexOf: T -> nat, same: T -> bool, index: nat)
    requires forall x :: same(x) <==> indexOf(x) == index
    ensures Filter(same, SortedByIndex(s, indexOf)) == Filter(same, s)
    decreases |s|
  {
    if s != [] {
      var front, last := s[..|s| - 1], s[|s| - 1];
      SortIsStable(front, indexOf, same, index);
      PlacedIsStable(SortedByIndex(front, indexOf), last, indexOf, same, index);
      FilterAppended(same, front, last);
      assert s == front + [last];
    }
  }

  lemma FilterAppended<T>(keep: T -> bool, s: seq<T>, item: T)
    ensures Filter(keep, s + [item]) == Filter(keep, s) + if keep(item) then [item] else []
  {
    FilterSnoc(keep, s + [item], |s|);
    assert (s + [item])[..|s|] == s && (s + [item])[..|s| + 1] == s + [item];
  }

  lemma {:induction false} PlacedIsStable<T>(s: seq<T>, item: T, indexOf: T -> nat, same: T -> bool, index: nat)
    requires forall x :: same(x) <==> indexOf(x) == index
    ensures Filter(same, Placed(s, item, indexOf)) == Filter(same, s) + if same(item) then [item] else []
    decreases |s|
  {
    hide Filter;
    if s == [] || indexOf(s[|s| - 1]) <= indexOf(item) {
      FilterAppended(same, s, item);
    } else {
      var front, last := s[..|s| - 1], s[|s| - 1];
      assert s == front + [last];
      PlacedIsStable(front, item, indexOf, same, index);
      FilterAppended(same, Placed(front, item, indexOf), last);
      FilterAppended(same, front, last);
    }
  }

  /** Nothing is dropped from a pool that already fits. */
  lemma FittingPoolIsKept<T(!new)>(capacity: nat, pool: seq<T>, indexOf: T -> nat)
    requires |pool| <= capacity
    ensures KeepsHighest(capacity, pool, pool, indexOf)
  {
    forall bound: nat
      ensures CountAtLeast(pool, indexOf, bound) == Min(capacity, CountAtLeast(pool, indexOf, bound))
    {
      CountBounds(pool, indexOf, bound);
    }
  }

  lemma SortKeepsHighest<T(!new)>(capacity: nat, pool: seq<T>, slots: seq<T>, indexOf: T -> nat)
    requires KeepsHighest(capacity, pool, slots, indexOf)
    ensures KeepsHighest(capacity, pool, SortedByIndex(slots, indexOf), indexOf)
  {
    var sorted := SortedByIndex(slots, indexOf);
    SortIsOrdered(slots, indexOf);
    forall bound: nat
      ensures CountAtLeast(sorted, indexOf, bound) == Min(capacity, CountAtLeast(pool, indexOf, bound))
    {
      CountIgnoresOrder(sorted, slots, indexOf, bound);
      assert CountAtLeast(slots, indexOf, bound) == Min(capacity, CountAtLeast(pool, indexOf, bound));
    }
  }

  // ---------------------------------------------------------------- the ring

  /** Overwriting the oldest slot of a full ring drops the oldest item and appends the new one. */
  lemma RingAdvances<T>(slots: seq<T>, oldest: nat, item: T)
    requires oldest < |slots|
    ensures var slots' := slots[oldest := item];
            var oldest' := if oldest + 1 == |slots| then 0 else oldest + 1;
            slots'[oldest'..] + slots'[..oldest'] == LastN(|slots|, slots[oldest..] + slots[..oldest] + [item])
  {
  }

  lemma WrapsOnce(x: nat, capacity: nat)
    requires x < 2 * capacity
    ensures x % capacity == if x < capacity then x else x - capacity
  {
  }

  /** A half-open range of indexes. */
  datatype Span = Span(start: nat, end: nat) {
    predicate Contains(index: nat) {
      start <= index < end
    }
  }

  /** What a splice chooses from: the held items outside the span, then the incoming ones inside it. */
  function SplicePool<T>(held: seq<T>, incoming: seq<T>, span: Span, indexOf: T -> nat): seq<T> {
    Filter((x: T) => !span.Contains(indexOf(x)), held) + Filter((x: T) => span.Contains(indexOf(x)), incoming)
  }

  lemma {:induction false} FilterCounts<T>(keep: T -> bool, s: seq<T>, x: T)
    ensures multiset(Filter(keep, s))[x] == if keep(x) then multiset(s)[x] else 0
  {
    if s != [] {
      assert s == [s[0]] + s[1..];
      FilterCounts(keep, s[1..], x);
    }
  }

  /** The pool holds an item as often as the incoming ones do where its index is from the start of the span to before
      its end, and as often as the held ones do elsewhere. */
  lemma PoolTakesTheSpan<T>(held: seq<T>, incoming: seq<T>, span: Span, indexOf: T -> nat, x: T)
    ensures multiset(SplicePool(held, incoming, span, indexOf))[x]
         == if span.start <= indexOf(x) && indexOf(x) < span.end then multiset(incoming)[x] else multiset(held)[x]
  {
    FilterCounts((x: T) => !span.Contains(indexOf(x)), held, x);
    FilterCounts((x: T) => span.Contains(indexOf(x)), incoming, x);
  }

  /** A pool that fits is kept whole. */
  lemma FittingPoolsAreKeptWhole<T(!new)>(capacity: nat, pool: seq<T>, kept: seq<T>, indexOf: T -> nat)
    requires KeepsHighest(capacity, pool, kept, indexOf) && |pool| <= capacity
    ensures multiset(kept) == multiset(pool)
  {
    CountBounds(kept, indexOf, 0);
    CountBounds(pool, indexOf, 0);
    assert CountAtLeast(kept, indexOf, 0) == Min(capacity, CountAtLeast(pool, indexOf, 0));
    assert |multiset(pool) - multiset(kept)| == |pool| - |kept|;
  }

  class BoundedHistory<T(!new)> {
    var slots: seq<T>
    const capacity: nat
    var oldest: nat
    var appended: nat

    ghost predicate Valid()
      reads this
    {
      && |slots| <= capacity
      && (oldest == 0 || (oldest < capacity && |slots| == capacity))
    }

    /** The items oldest first. */
    ghost function Contents(): seq<T>
      requires Valid()
      reads this
    {
      slots[oldest..] + slots[..oldest]
    }

    constructor (capacity: nat)
      ensures Valid() && Contents() == [] && this.capacity == capacity && appended == 0
    {
      slots, oldest, appended := [], 0, 0;
      this.capacity := capacity;
    }

    method Push(item: T)
      requires Valid()
      modifies this
      ensures Valid() && appended == old(appended) + 1
      ensures Contents() == LastN(capacity, old(Contents()) + [item])
    {
      appended := appended + 1;
      if capacity == 0 {
        return;
      }
      if |slots| < capacity {
        slots := slots + [item];
        return;
      }
      WrapsOnce(oldest + 1, capacity);
      RingAdvances(slots, oldest, item);
      slots := slots[oldest := item];
      oldest := (oldest + 1) % capacity;
    }

    /** Modular indexing visits the contents in order, on either side of the wrap. */
    function IterOldestFirst(): (items: seq<T>)
      requires Valid()
      reads this
      ensures items == Contents()
    {
      seq(|slots|, i requires 0 <= i < |slots| && Valid() reads this => SlotFromOldest(i))
    }

    /** `i` places newer than the oldest. */
    function SlotFromOldest(i: nat): (item: T)
      requires Valid() && i < |slots|
      reads this
      ensures item == Contents()[i]
    {
      WrapsOnce(oldest + i, capacity);
      slots[(oldest + i) % capacity]
    }

    /** Overwrites the newest item in place. */
    method SetLast(item: T) returns (found: bool)
      requires Valid()
      modifies this`slots
      ensures Valid() && (found <==> old(Contents()) != [])
      ensures Contents() == if found then old(Contents())[|old(Contents())| - 1 := item] else old(Contents())
    {
      if slots == [] {
        return false;
      }
      WrapsOnce(oldest + (|slots| - 1), capacity);
      var index := (oldest + (|slots| - 1)) % capacity;
      slots := slots[index := item];
      found := true;
    }

    /** Replaces a span of indices: held items inside it go, incoming items inside it come, and of all of those
        the `capacity` highest stay, sorted. */
    method ReplaceSpan(span: Span, incoming: seq<T>, indexOf: T -> nat)
      requires Valid()
      modifies this`slots, this`oldest
      ensures Valid() && InIndexOrder(Contents(), indexOf)
      ensures KeepsHighest(capacity, SplicePool(old(Contents()), incoming, span, indexOf), Contents(), indexOf)
    {
      slots := slots[oldest..] + slots[..oldest];
      oldest := 0;
      var isOutside := (x: T) => !span.Contains(indexOf(x));
      FilterKeeps(isOutside, slots);
      slots := Filter(isOutside, slots);
      FittingPoolIsKept(capacity, slots, indexOf);
      StreamSpan(slots, span, incoming, indexOf);
      SortKeepsHighest(capacity, SplicePool(old(Contents()), incoming, span, indexOf), slots, indexOf);
      SortIsOrdered(slots, indexOf);
      assert |multiset(SortedByIndex(slots, indexOf))| == |multiset(slots)|;
      slots := SortedByIndex(slots, indexOf);
      assert Contents() == slots;
    }

    method StreamSpan(ghost outside: seq<T>, span: Span, incoming: seq<T>, indexOf: T -> nat)
      requires |slots| <= capacity && KeepsHighest(capacity, outside, slots, indexOf)
      modifies this`slots
      ensures |slots| <= capacity
      ensures KeepsHighest(capacity, outside + Filter((x: T) => span.Contains(indexOf(x)), incoming), slots, indexOf)
    {
      hide KeepsHighest;
      ghost var isInside := (x: T) => span.Contains(indexOf(x));
      assert outside + Filter(isInside, incoming[..0]) == outside;
      for i := 0 to |incoming|
        invariant |slots| <= capacity
        invariant KeepsHighest(capacity, outside + Filter(isInside, incoming[..i]), slots, indexOf)
      {
        var item := incoming[i];
        ghost var pool := outside + Filter(isInside, incoming[..i]);
        FilterSnoc(isInside, incoming, i);
        if span.Contains(indexOf(item)) {
          InsertKeepsHighest(capacity, pool, slots, item, indexOf);
          assert outside + Filter(isInside, incoming[..i + 1]) == pool + [item];
          InsertWithinCapacity(item, indexOf);
        } else {
          assert outside + Filter(isInside, incoming[..i + 1]) == pool;
        }
      }
      assert incoming[..|incoming|] == incoming;
    }

    method InsertWithinCapacity(item: T, indexOf: T -> nat)
      requires |slots| <= capacity
      modifies this`slots
      ensures slots == InsertedWithin(capacity, old(slots), item, indexOf) && |slots| <= capacity
    {
      if |slots| < capacity {
        slots := slots + [item];
        return;
      }
      if slots == [] {
        return;
      }
      var position := LowestPosition(slots, indexOf);
      if indexOf(item) < indexOf(slots[position]) {
        return;
      }
      slots := RemoveAt(slots, position);
      slots := slots + [item];
    }
  }
}
