/** A bounded single-producer single-consumer FIFO, as the lock-free ring behind every hot-side lane
    behaves: a push onto a full ring is refused and changes nothing. */
module Rings {
  import opened Common

  class Ring<T> {
    var items: seq<T>
    const capacity: nat

    constructor (capacity: nat)
      ensures items == [] && this.capacity == capacity
    {
      items := [];
      this.capacity := capacity;
    }

    method Push(item: T) returns (ok: bool)
      modifies this
      ensures ok <==> |old(items)| < capacity
      ensures items == if ok then old(items) + [item] else old(items)
    {
      ok := |items| < capacity;
      if ok {
        items := items + [item];
      }
    }

    method Pop() returns (item: Option<T>)
      modifies this
      ensures item.None? <==> old(items) == []
      ensures item.None? ==> items == []
      ensures item.Some? ==> item.value == old(items)[0] && items == old(items)[1..]
    {
      if items == [] {
        return None;
      }
      item := Some(items[0]);
      items := items[1..];
    }
  }
}
