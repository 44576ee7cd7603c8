/** The fixed-window rolling series for `i64` elements (src/hot/series.rs): the live window is always one
    contiguous slice of a backing store a few windows long, copied back to the front when it reaches the
    end, with its exact sum kept as items come and go. */
module Series {
  import opened Common

  function Sum(s: seq<int>): int {
    if s == [] then 0 else Sum(s[..|s| - 1]) + s[|s| - 1]
  }

  lemma {:induction false} SumDropsFirst(s: seq<int>)
    requires s != []
    ensures Sum(s) == s[0] + Sum(s[1..])
  {
    if |s| > 1 {
      assert s[..|s| - 1][1..] == s[1..][..|s| - 2];
      SumDropsFirst(s[..|s| - 1]);
    } else {
      assert s[..0] == s[1..] == [];
    }
  }

  lemma SumSlides(s: seq<int>, item: int)
    ensures Sum(s + [item]) == Sum(s) + item
    ensures s != [] ==> Sum(s[1..] + [item]) == Sum(s) - s[0] + item
  {
    assert (s + [item])[..|s|] == s;
    if s != [] {
      SumDropsFirst(s);
      assert (s[1..] + [item])[..|s| - 1] == s[1..];
    }
  }

  /** A full window loses its first item to make room for the newest. */
  lemma WindowSlides(window: nat, pushed: seq<I64>, item: I64)
    requires window > 0
    ensures var live, live' := LastN(window, pushed), LastN(window, pushed + [item]);
            && live' == (if |live| == window then live[1..] else live) + [item]
            && Sum(live') == Sum(live) + item - (if |live| == window then live[0] else 0)
  {
    SumSlides(LastN(window, pushed), item);
  }

  /** Writing one item at the head extends the live slice; dropping its first then slides it. */
  lemma SliceSlides(buf: seq<I64>, buf': seq<I64>, start: nat, head: nat, item: I64)
    requires start <= head <= |buf| <= |buf'| && head < |buf'| && buf'[head] == item
    requires forall i :: start <= i < head ==> buf'[i] == buf[i]
    ensures buf'[start..head + 1] == buf[start..head] + [item]
    ensures start < head ==> buf'[start + 1..head + 1] == buf[start..head][1..] + [item]
                             && buf'[start] == buf[start..head][0]
  {
  }

  class FastQueue {
    var buf: seq<I64>
    const window: nat
    const backing: nat
    var start: nat
    var head: nat
    var sumExact: int
    /** Everything pushed since the last clear; how many items were ever pushed, and ever copied back. */
    ghost var pushed: seq<I64>
    ghost var pushCount: nat
    ghost var movedCount: nat

    ghost predicate Valid()
      reads this
    {
      && 0 < window && 2 * window <= backing
      && head <= |buf| <= backing
      && start == Max(0, head - window)
      && buf[start..head] == LastN(window, pushed)
      && sumExact == Sum(buf[start..head])
      && movedCount + head <= pushCount
    }

    /** Everything the derived equality of two queues compares. */
    ghost function Physical(): (seq<I64>, nat, nat, int)
      reads this
    {
      (buf, start, head, sumExact)
    }

    constructor (window: nat, backingMultiple: nat)
      requires window != 0 && backingMultiple >= 2
      ensures Valid() && this.window == window && pushed == [] && pushCount == 0
      ensures Physical() == ([], 0, 0, 0)
    {
      this.window := window;
      this.backing := window * backingMultiple;
      buf, start, head, sumExact := [], 0, 0, 0;
      pushed, pushCount, movedCount := [], 0, 0;
      new;
      assert window * backingMultiple >= window * 2;
    }

    /** The live window, oldest first. */
    function AsSlice(): (items: seq<I64>)
      requires Valid()
      reads this
      ensures items == LastN(window, pushed)
    {
      buf[start..head]
    }

    /** The window's sum, or nothing where the program panics because it leaves `i64`. */
    function SumOrPanic(): (sum: Option<I64>)
      requires Valid()
      reads this
      ensures var exact := Sum(LastN(window, pushed));
              sum == if I64_MIN <= exact <= I64_MAX then Some(exact) else None
    {
      if I64_MIN <= sumExact <= I64_MAX then Some(sumExact) else None
    }

    /** A cleared queue is indistinguishable from a fresh one. */
    method Clear()
      requires Valid()
      modifies this
      ensures Valid() && pushed == [] && Physical() == ([], 0, 0, 0)
      ensures pushCount == old(pushCount) && movedCount == old(movedCount)
    {
      buf, start, head, sumExact := [], 0, 0, 0;
      pushed := [];
    }

    /** Appends an item, evicting the oldest of a full window. Over any run of pushes and clears, no more
        items are ever copied back than were pushed. */
    method Push(item: I64)
      requires Valid()
      modifies this
      ensures Valid() && pushed == old(pushed) + [item] && pushCount == old(pushCount) + 1
      ensures movedCount <= pushCount
    {
      if head == backing {
        CopyBack();
      }
      Append(item);
    }

    method Append(item: I64)
      requires Valid() && head < backing
      modifies this
      ensures Valid() && pushed == old(pushed) + [item] && pushCount == old(pushCount) + 1
      ensures movedCount <= pushCount
    {
      hide Sum, LastN;
      WindowSlides(window, pushed, item);
      ghost var before := buf;
      WriteHead(item);
      SliceSlides(before, buf, start, head, item);
      sumExact := sumExact + item;
      if head - start == window {
        sumExact := sumExact - buf[start];
      }
      head := head + 1;
      if head > window {
        start := start + 1;
      }
      pushed, pushCount := pushed + [item], pushCount + 1;
    }

    method WriteHead(item: I64)
      requires head <= |buf|
      modifies this`buf
      ensures |buf| == (if head == |old(buf)| then head + 1 else |old(buf)|) && buf[head] == item
      ensures forall i :: 0 <= i < |old(buf)| && i != head ==> buf[i] == old(buf)[i]
    {
      if head == |buf| {
        buf := buf + [item];
      } else {
        buf := buf[head := item];
      }
    }

    /** Relocates the live window to the front, and recomputes its sum. */
    method CopyBack()
      requires Valid() && head == backing
      modifies this
      ensures Valid() && head < backing && pushed == old(pushed) && pushCount == old(pushCount)
    {
      var live := head - start;
      ghost var items := buf[start..head];
      buf := buf[start..head] + buf[live..];
      movedCount := movedCount + live;
      start, head := 0, live;
      assert buf[start..head] == items;
      RecomputeSums();
    }

    method RecomputeSums()
      requires start <= head <= |buf|
      modifies this`sumExact
      ensures sumExact == Sum(buf[start..head])
    {
      var sum: int := 0;
      for i := start to head
        invariant sum == Sum(buf[start..i])
      {
        assert buf[start..i + 1][..i - start] == buf[start..i];
        sum := sum + buf[i];
      }
      sumExact := sum;
    }
  }
}
