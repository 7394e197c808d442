/** The backend's FIFO event queue (`_EventQueue` in
    python/saliweb/backend/events.py), as a sequential structure: the lock,
    the condition variable and the timed wait are not modelled, so `get` on
    an empty queue returns `None` at once. */
module EventQueues {
  import opened Base

  class EventQueue<T> {
    /** The deque, head first. */
    var items: seq<T>

    constructor ()
      ensures items == []
    {
      items := [];
    }

    /** `put(item)`: appends one item at the tail. */
    method Put(item: T)
      modifies this
      ensures items == old(items) + [item]
    {
      items := items + [item];
    }

    /** `get()`: removes and returns the head item, or `None` when the
        queue is empty (the `IndexError` of `popleft` is caught). */
    method Get() returns (r: Option<T>)
      modifies this
      ensures old(items) == [] ==> r == None && items == []
      ensures old(items) != [] ==> r == Some(old(items)[0]) && items == old(items)[1..]
    {
      if items == [] {
        r := None;
      } else {
        r := Some(items[0]);
        items := items[1..];
      }
    }
  }

  /** A fresh queue that receives `xs` and is then read `|xs|` times hands
      the items back in the order they were put, and one more `get` finds
      it drained. */
  method PutAllThenDrain<T>(xs: seq<T>) returns (out: seq<T>, after: Option<T>)
    ensures out == xs
    ensures after == None
  {
    var q := new EventQueue<T>();
    var i := 0;
    while i < |xs|
      invariant 0 <= i <= |xs|
      invariant q.items == xs[..i]
    {
      q.Put(xs[i]);
      i := i + 1;
    }
    out := [];
    var j := 0;
    while j < |xs|
      invariant 0 <= j <= |xs|
      invariant q.items == xs[j..]
      invariant out == xs[..j]
    {
      var r := q.Get();
      out := out + [r.value];
      j := j + 1;
    }
    after := q.Get();
  }

  /** Interleaved use: items put while others are still queued come out
      after them. */
  method InterleavedOrder<T>(a: T, b: T, c: T) returns (got: seq<Option<T>>)
    ensures got == [None, Some(a), Some(b), Some(c), None]
  {
    var q := new EventQueue<T>();
    var g0 := q.Get();
    q.Put(a);
    q.Put(b);
    var g1 := q.Get();
    q.Put(c);
    var g2 := q.Get();
    var g3 := q.Get();
    var g4 := q.Get();
    got := [g0, g1, g2, g3, g4];
  }
}
