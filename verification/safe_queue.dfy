/**
 * SafeQueue: a bounded FIFO guarded by a mutex and a condition variable.
 * The model keeps the data side of every operation: the queued elements
 * (m_theQueue) and the bound (m_maximumSize). Each blocking operation is
 * modelled from the point where its wait has ended, and each
 * `notify_all` decision is returned as a flag.
 */
module SafeQueues {
  import opened Common

  class SafeQueue<T> {
    var items: seq<T>
    var maximumSize: nat

    /** No operation lets the queue grow past its bound. */
    ghost predicate Valid()
      reads this
    {
      |items| <= maximumSize
    }

    /** IsEmpty(), which is also the condition a Pop waits on. */
    predicate PopBlocked()
      reads this
    {
      items == []
    }

    /** A Push on this queue would wait: the queue is at (or over) its bound. */
    predicate PushBlocked()
      reads this
    {
      |items| >= maximumSize
    }

    /** SafeQueue(maxSize): empty. */
    constructor (maxSize: nat)
      ensures Valid() && items == [] && maximumSize == maxSize
    {
      items, maximumSize := [], maxSize;
    }

    /**
     * Copy constructor, and also the move constructor: that one names the
     * source's queue as an lvalue, so it copies it too and leaves the source
     * as it was.
     */
    constructor Copy(src: SafeQueue<T>)
      requires src.Valid()
      ensures Valid()
      ensures items == src.items && maximumSize == src.maximumSize
    {
      items, maximumSize := src.items, src.maximumSize;
    }

    /**
     * WakeUpSignalNeeded(src): taking over `src`'s data releases a waiter of
     * this queue, a Pop that waits for data or a Push that waits for room.
     */
    predicate WakeUpSignalNeeded(src: SafeQueue<T>)
      reads this, src
      ensures WakeUpSignalNeeded(src) <==>
                (PopBlocked() && !src.PopBlocked()) || (PushBlocked() && !src.PushBlocked())
    {
      if items == [] && src.items != [] then true
      else if |items| >= maximumSize && |src.items| < src.maximumSize then true
      else false
    }

    /**
     * TryPush: appends `x` when there is room and reports whether it did.
     * Waiters are notified whenever the queue was empty, whether or not the
     * push succeeded.
     */
    method TryPush(x: T) returns (ok: bool, notify: bool)
      requires Valid()
      modifies this
      ensures Valid() && maximumSize == old(maximumSize)
      ensures ok <==> old(|items|) < maximumSize
      ensures items == if ok then old(items) + [x] else old(items)
      ensures notify <==> old(items) == []
    {
      notify := items == [];
      ok := false;
      if |items| < maximumSize {
        items := items + [x];
        ok := true;
      }
    }

    /** Push once its wait has ended (the queue is below its bound): appends and notifies if it was empty. */
    method Push(x: T) returns (notify: bool)
      requires Valid() && !PushBlocked()
      modifies this
      ensures Valid() && maximumSize == old(maximumSize)
      ensures items == old(items) + [x]
      ensures notify <==> old(items) == []
    {
      notify := items == [];
      items := items + [x];
    }

    /**
     * TryPop: on an empty queue reports false and leaves `data` and the queue
     * alone; otherwise takes the front element, and notifies when the queue
     * was at its bound before.
     */
    method TryPop(data: T) returns (ok: bool, x: T, notify: bool)
      requires Valid()
      modifies this
      ensures Valid() && maximumSize == old(maximumSize)
      ensures ok <==> old(items) != []
      ensures ok ==> x == old(items)[0] && items == old(items)[1..]
      ensures !ok ==> x == data && items == old(items)
      ensures notify <==> ok && old(|items|) >= maximumSize
    {
      x, notify := data, false;
      ok := false;
      if items != [] {
        notify := |items| >= maximumSize;
        x := items[0];
        items := items[1..];
        ok := true;
      }
    }

    /** Pop once its wait has ended (the queue is not empty): takes the front element. */
    method Pop() returns (x: T, notify: bool)
      requires Valid() && !PopBlocked()
      modifies this
      ensures Valid() && maximumSize == old(maximumSize)
      ensures x == old(items)[0] && items == old(items)[1..]
      ensures notify <==> old(|items|) >= maximumSize
    {
      notify := |items| >= maximumSize;
      x := items[0];
      items := items[1..];
    }

    /**
     * TimedWaitPop once its wait has ended, by data or by timeout: the wait's
     * outcome is whether the queue is non-empty, and what follows is TryPop.
     */
    method TimedWaitPop(data: T) returns (ok: bool, x: T, notify: bool)
      requires Valid()
      modifies this
      ensures Valid() && maximumSize == old(maximumSize)
      ensures ok <==> old(items) != []
      ensures ok ==> x == old(items)[0] && items == old(items)[1..]
      ensures !ok ==> x == data && items == old(items)
      ensures notify <==> ok && old(|items|) >= maximumSize
    {
      ok, x, notify := TryPop(data);
    }

    /**
     * Copy assignment: nothing happens on self-assignment; otherwise this
     * queue takes the source's elements and bound, and notifies exactly when a
     * waiter's condition switches from blocked to free.
     */
    method Assign(src: SafeQueue<T>) returns (notify: bool)
      requires src.Valid()
      modifies this
      ensures Valid() || src == this
      ensures src == this ==> !notify && items == old(items) && maximumSize == old(maximumSize)
      ensures src != this ==> items == src.items && maximumSize == src.maximumSize
      ensures notify <==> src != this && old(WakeUpSignalNeeded(src))
      ensures notify <==> src != this && ((old(PopBlocked()) && !PopBlocked()) || (old(PushBlocked()) && !PushBlocked()))
    {
      notify := false;
      if src != this {
        notify := WakeUpSignalNeeded(src);
        maximumSize := src.maximumSize;
        items := src.items;
      }
    }

    /**
     * Move assignment: as copy assignment for this queue; the moved-from
     * queue keeps its bound and is left with unspecified elements.
     */
    method MoveAssign(src: SafeQueue<T>) returns (notify: bool)
      requires src.Valid()
      modifies this, src
      ensures src != this ==> items == old(src.items) && maximumSize == old(src.maximumSize) && Valid()
      ensures src == this ==> !notify && items == old(items) && maximumSize == old(maximumSize)
      ensures src.maximumSize == old(src.maximumSize)
      ensures notify <==> src != this && old(WakeUpSignalNeeded(src))
    {
      notify := false;
      if src != this {
        notify := WakeUpSignalNeeded(src);
        maximumSize := src.maximumSize;
        items := src.items;
        src.items := *;
      }
    }
  }

  /**
   * The producer/consumer trace of the SafeQueue test with a bound of 10:
   * ten pushes fill the queue, TryPush(11) is refused, ten pops return 0..9
   * in order, five more pushes are taken back by TimedWaitPop as 0..4, and a
   * last TimedWaitPop on the empty queue reports false.
   */
  method CapacityTenTrace() returns (accepted: bool, first: seq<int>, second: seq<int>, last: bool)
    ensures !accepted
    ensures first == Range(10) && second == Range(5)
    ensures !last
  {
    var q := new SafeQueue<int>(10);
    PushInOrder(q, 10);
    var notified, x;
    accepted, notified := q.TryPush(11);
    first := PopAll(q, 10);
    PushInOrder(q, 5);
    second := TimedPopAll(q, 5);
    last, x, notified := q.TimedWaitPop(-1);
  }

  /** Pushes 0, 1, ..., n - 1 onto an empty queue with room for them; no Push waits. */
  method PushInOrder(q: SafeQueue<int>, n: nat)
    requires q.Valid() && q.items == [] && n <= q.maximumSize
    modifies q
    ensures q.Valid() && q.items == Range(n) && q.maximumSize == old(q.maximumSize)
  {
    var i := 0;
    while i < n
      invariant 0 <= i <= n
      invariant q.Valid() && q.maximumSize == old(q.maximumSize) && q.items == Range(i)
    {
      var _ := q.Push(i);
      RangeAppend(i);
      i := i + 1;
    }
  }

  /** Pops n times from a queue holding 0, 1, ..., n - 1, which come out in that order; no Pop waits. */
  method PopAll(q: SafeQueue<int>, n: nat) returns (popped: seq<int>)
    requires q.Valid() && q.items == Range(n)
    modifies q
    ensures q.Valid() && q.items == [] && q.maximumSize == old(q.maximumSize) && popped == Range(n)
  {
    var i := 0;
    popped := [];
    while i < n
      invariant 0 <= i <= n
      invariant q.Valid() && q.maximumSize == old(q.maximumSize)
      invariant q.items == Range(n)[i..] && popped == Range(i)
    {
      var x, _ := q.Pop();
      RangeAppend(i);
      popped, i := popped + [x], i + 1;
    }
  }

  /** As PopAll, with TimedWaitPop, whose waits all end with data. */
  method TimedPopAll(q: SafeQueue<int>, n: nat) returns (popped: seq<int>)
    requires q.Valid() && q.items == Range(n)
    modifies q
    ensures q.Valid() && q.items == [] && q.maximumSize == old(q.maximumSize) && popped == Range(n)
  {
    var i := 0;
    popped := [];
    while i < n
      invariant 0 <= i <= n
      invariant q.Valid() && q.maximumSize == old(q.maximumSize)
      invariant q.items == Range(n)[i..] && popped == Range(i)
    {
      var ok, x, _ := q.TimedWaitPop(-1);
      RangeAppend(i);
      popped, i := popped + [x], i + 1;
    }
  }
}
