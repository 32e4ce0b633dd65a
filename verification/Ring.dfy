/** The fixed-capacity ring behind a machine's log buffer: pushing at the front of a full ring
    overwrites the entry at its back. The ring refines "the newest entries of the history". */
module Ring {
  import opened Protocol

  /** What a ring of the given capacity shows of a history: newest entry first. */
  function Newest<T>(history: seq<T>, capacity: nat): (view: seq<T>)
    ensures |view| == Min(|history|, capacity)
  {
    seq(Min(|history|, capacity), i requires 0 <= i < Min(|history|, capacity) => history[|history| - 1 - i])
  }

  /** The last `Min(|history|, capacity)` entries of the history, oldest first. */
  function Tail<T>(history: seq<T>, capacity: nat): (tail: seq<T>)
    ensures |tail| == Min(|history|, capacity)
  {
    history[|history| - Min(|history|, capacity)..]
  }

  class CircularBuffer<T(0)> {
    const items: array<T>
    var start: nat // position of the front entry
    var size: nat
    ghost var history: seq<T> // everything ever pushed, oldest first

    ghost predicate Valid()
      reads this, items
    {
      && 0 < items.Length
      && start < items.Length
      && size == Min(|history|, items.Length)
      && (forall i :: 0 <= i < size ==> items[Slot(i)] == history[|history| - 1 - i])
    }

    /** The array position of the i-th entry counted from the front. */
    function Slot(i: nat): (k: nat)
      requires start < items.Length && i < items.Length
      reads this
      ensures k < items.Length
    {
      if start + i < items.Length then start + i else start + i - items.Length
    }

    constructor (capacity: nat, default: T)
      requires 0 < capacity
      ensures Valid() && fresh(items)
      ensures items.Length == capacity && history == []
    {
      items := new T[capacity](_ => default);
      start, size, history := 0, 0, [];
    }

    /** Pushes at the front; when the ring is full the entry at the back is overwritten. */
    method PushFront(x: T)
      requires Valid()
      modifies this, items
      ensures Valid()
      ensures history == old(history) + [x]
    {
      start := if start == 0 then items.Length - 1 else start - 1;
      items[start] := x;
      if size < items.Length {
        size := size + 1;
      }
      history := history + [x];
      assert forall i :: 0 < i < size ==> Slot(i) == old(Slot(i - 1)) && Slot(i) != start;
    }

    /** Front-to-back iteration: newest entry first. */
    method Iter() returns (view: seq<T>)
      requires Valid()
      ensures view == Newest(history, items.Length)
    {
      view := [];
      for i := 0 to size
        invariant |view| == i
        invariant forall k :: 0 <= k < i ==> view[k] == history[|history| - 1 - k]
      {
        view := view + [items[Slot(i)]];
      }
    }
  }
}
