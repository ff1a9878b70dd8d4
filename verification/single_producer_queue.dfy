/**
 * ArrayLockFreeQueueSingleProducer: a ring buffer of Q_SIZE slots with a
 * write cursor advanced only by the one producer and a read cursor that the
 * consumers advance with a compare-and-swap. Both cursors are `uint32_t`
 * counters that wrap round; an element's slot is its cursor modulo Q_SIZE.
 *
 * `Contents` is the abstract queue: the elements between the read and the
 * write cursor, oldest first. Each method below is one atomic step of the
 * source; the consumer's compare-and-swap retry loop is `TryPop` with the
 * cursor value the consumer loaded.
 *
 * The element counter m_count is updated by a `fetch_add` or `fetch_sub` of
 * its own after the cursor has moved (`CountUp`, `CountDown`), so between
 * the two steps it lags behind the cursors. `PendingAdds` and `PendingSubs`
 * count the pushes and pops that have moved a cursor but not yet the counter.
 */
module SingleProducer {
  import opened Word32
  import opened RingIndex

  class SingleProducerQueue<T(0)> {
    const qSize: uint32
    const slots: array<T>
    var writeIndex: uint32
    var readIndex: uint32
    /** m_count, kept when _WITH_LOCK_FREE_Q_KEEP_REAL_SIZE is defined. */
    var count: uint32
    ghost var Contents: seq<T>
    ghost var PendingAdds: nat
    ghost var PendingSubs: nat
    /** What m_count would hold without wrap-around. */
    ghost var Tally: int

    ghost predicate Valid()
      reads this, slots
    {
      && StableSize(qSize)
      && slots.Length == qSize
      && |Contents| == Sub(writeIndex, readIndex) < qSize
      && Tally == |Contents| + PendingSubs - PendingAdds
      && count == Wrap(Tally)
      && Laid(slots[..], qSize, readIndex, Contents)
    }

    /** Both cursors (and the counter) start at 0. */
    constructor (q: uint32)
      requires StableSize(q)
      ensures Valid() && fresh(slots)
      ensures qSize == q && Contents == [] && PendingAdds == 0 && PendingSubs == 0
      ensures writeIndex == 0 && readIndex == 0
    {
      qSize := q;
      slots := new T[q];
      writeIndex, readIndex, count := 0, 0, 0;
      Contents, PendingAdds, PendingSubs, Tally := [], 0, 0, 0;
    }

    /**
     * push() up to its `m_writeIndex.fetch_add(1)`: rejected when the slot
     * after the write cursor is the read cursor's slot; otherwise the element
     * goes to the write cursor's slot and the write cursor moves on by one.
     * The counter is left for `CountUp`.
     */
    method Publish(x: T) returns (ok: bool)
      requires Valid()
      modifies this, slots
      ensures Valid()
      ensures ok <==> |old(Contents)| < qSize - 1
      ensures Contents == if ok then old(Contents) + [x] else old(Contents)
      ensures readIndex == old(readIndex)
      ensures writeIndex == if ok then Add(old(writeIndex), 1) else old(writeIndex)
      ensures PendingAdds == if ok then old(PendingAdds) + 1 else old(PendingAdds)
      ensures count == old(count) && PendingSubs == old(PendingSubs)
    {
      FullIffAtCapacity(qSize, writeIndex, readIndex);
      if FullTest(qSize, writeIndex, readIndex) {
        return false;
      }
      var n := |Contents|;
      AddOfSub(writeIndex, readIndex);
      LaidWrite(slots[..], qSize, readIndex, Contents, n, x);
      slots[CountToIndex(writeIndex, qSize)] := x;
      assert slots[..] == old(slots[..])[CountToIndex(Add(readIndex, n), qSize) := x];
      LaidAppend(slots[..], qSize, readIndex, Contents, x);
      SubStepCursor(readIndex, writeIndex);
      writeIndex := Add(writeIndex, 1);
      Contents := Contents + [x];
      PendingAdds := PendingAdds + 1;
      ok := true;
    }

    /** `m_count.fetch_add(1)` at the end of a push whose cursor step is done. */
    method CountUp()
      requires Valid() && PendingAdds > 0
      modifies this
      ensures Valid()
      ensures count == Add(old(count), 1) && PendingAdds == old(PendingAdds) - 1
      ensures Contents == old(Contents) && PendingSubs == old(PendingSubs)
      ensures writeIndex == old(writeIndex) && readIndex == old(readIndex)
    {
      WrapStep(Tally);
      count := Add(count, 1);
      PendingAdds, Tally := PendingAdds - 1, Tally + 1;
    }

    /** `m_count.fetch_sub(1)` at the end of a pop whose compare-and-swap succeeded. */
    method CountDown()
      requires Valid() && PendingSubs > 0
      modifies this
      ensures Valid()
      ensures count == Sub(old(count), 1) && PendingSubs == old(PendingSubs) - 1
      ensures Contents == old(Contents) && PendingAdds == old(PendingAdds)
      ensures writeIndex == old(writeIndex) && readIndex == old(readIndex)
    {
      WrapStep(Tally);
      count := Sub(count, 1);
      PendingSubs, Tally := PendingSubs - 1, Tally - 1;
    }

    /** push(): the cursor step, then the counter step when the element went in. */
    method Push(x: T) returns (ok: bool)
      requires Valid()
      modifies this, slots
      ensures Valid()
      ensures ok <==> |old(Contents)| < qSize - 1
      ensures Contents == if ok then old(Contents) + [x] else old(Contents)
      ensures readIndex == old(readIndex)
      ensures writeIndex == if ok then Add(old(writeIndex), 1) else old(writeIndex)
      ensures PendingAdds == old(PendingAdds) && PendingSubs == old(PendingSubs)
    {
      ok := Publish(x);
      if ok {
        CountUp();
      }
    }

    /**
     * One pass of pop()'s retry loop, for a consumer that loaded `seen` from
     * the read cursor: Empty when `seen`'s slot is the write cursor's slot;
     * otherwise the element in `seen`'s slot is taken if the compare-and-swap
     * still finds `seen` in the read cursor, and Lost, with the copy already
     * made into the caller's variable, when another consumer has moved it
     * first.
     */
    method TryPop(seen: uint32) returns (outcome: PopOutcome<T>)
      requires Valid()
      modifies this
      ensures Valid()
      ensures outcome.Empty? <==> EmptyTest(qSize, seen, writeIndex)
      ensures outcome.Lost? <==> !EmptyTest(qSize, seen, writeIndex) && seen != old(readIndex)
      ensures outcome.Lost? ==> outcome.read == slots[CountToIndex(seen, qSize)]
      ensures seen == old(readIndex) ==> (outcome.Empty? <==> old(Contents) == [])
      ensures outcome.Popped? ==> old(Contents) != [] && outcome.value == old(Contents)[0]
      ensures Contents == if outcome.Popped? then old(Contents)[1..] else old(Contents)
      ensures writeIndex == old(writeIndex)
      ensures readIndex == if outcome.Popped? then Add(old(readIndex), 1) else old(readIndex)
      ensures PendingSubs == if outcome.Popped? then old(PendingSubs) + 1 else old(PendingSubs)
      ensures count == old(count) && PendingAdds == old(PendingAdds)
    {
      EmptyIffEqual(qSize, readIndex, writeIndex);
      if EmptyTest(qSize, seen, writeIndex) {
        return Empty;
      }
      var x := slots[CountToIndex(seen, qSize)];
      if readIndex != seen {
        return Lost(x);
      }
      LaidPop(slots[..], qSize, readIndex, Contents);
      SubStepBase(readIndex, writeIndex);
      readIndex := Add(readIndex, 1);
      Contents := Contents[1..];
      PendingSubs := PendingSubs + 1;
      outcome := Popped(x);
    }

    /**
     * pop() for a consumer that is not overtaken: the pass of the retry loop
     * that loads the current read cursor always ends the loop. `data` is the
     * caller's variable, left as it was when the queue is empty. A
     * successful pass ends with the counter step.
     */
    method Pop(data: T) returns (ok: bool, x: T)
      requires Valid()
      modifies this
      ensures Valid()
      ensures ok <==> old(Contents) != []
      ensures ok ==> x == old(Contents)[0] && Contents == old(Contents)[1..]
      ensures !ok ==> x == data && Contents == old(Contents)
      ensures writeIndex == old(writeIndex)
      ensures PendingAdds == old(PendingAdds) && PendingSubs == old(PendingSubs)
    {
      var outcome := TryPop(readIndex);
      match outcome
      case Empty =>
        ok, x := false, data;
      case Lost(_) =>
        assert false;
      case Popped(v) =>
        CountDown();
        ok, x := true, v;
    }

    /** size() with its else branch on slot indices: the number of queued elements. */
    function Size(): (n: uint32)
      requires Valid()
      reads this, slots
      ensures n == |Contents|
    {
      SizeCountsElements(qSize, writeIndex, readIndex);
      RingIndex.Size(qSize, writeIndex, readIndex)
    }

    /** size() as the source writes it: Q_SIZE too large whenever the elements wrap round the array end. */
    function SizeAsWritten(): (n: uint32)
      requires Valid()
      reads this, slots
      ensures CountToIndex(writeIndex, qSize) >= CountToIndex(readIndex, qSize) ==> n == |Contents|
      ensures CountToIndex(writeIndex, qSize) < CountToIndex(readIndex, qSize) ==> n == |Contents| + qSize
    {
      if CountToIndex(writeIndex, qSize) < CountToIndex(readIndex, qSize) then
        SizeAsWrittenOvershoots(qSize, writeIndex, readIndex);
        RingIndex.SizeAsWritten(qSize, writeIndex, readIndex)
      else
        RingIndex.SizeAsWritten(qSize, writeIndex, readIndex)
    }

    /**
     * size() with _WITH_LOCK_FREE_Q_KEEP_REAL_SIZE: the counter. It is the
     * number of queued elements once every push and pop has done its counter
     * step, and lags by the steps still pending otherwise, wrapping round
     * below 0.
     */
    function CountedSize(): (n: uint32)
      requires Valid()
      reads this, slots
      ensures PendingAdds == 0 && PendingSubs == 0 ==> n == |Contents|
      ensures n == Wrap(|Contents| + PendingSubs - PendingAdds)
    {
      count
    }

    /** full(): the slot after the write cursor is the read cursor's slot, that is, Q_SIZE - 1 elements are queued. */
    predicate Full()
      requires Valid()
      reads this, slots
      ensures Full() <==> |Contents| == qSize - 1
    {
      FullIffAtCapacity(qSize, writeIndex, readIndex);
      FullTest(qSize, writeIndex, readIndex)
    }

    /** full() with _WITH_LOCK_FREE_Q_KEEP_REAL_SIZE: the counter equals Q_SIZE - 1, exact only with no counter step pending. */
    predicate CountedFull()
      requires Valid()
      reads this, slots
      ensures PendingAdds == 0 && PendingSubs == 0 ==> (CountedFull() <==> |Contents| == qSize - 1)
      ensures CountedFull() <==> Wrap(|Contents| + PendingSubs - PendingAdds) == qSize - 1
    {
      count == qSize - 1
    }
  }

  /**
   * A pop that runs between a push's cursor step and its counter step, on an
   * empty queue of Q_SIZE 16: the pop's `fetch_sub` takes the counter below
   * 0, so size() reports 0xFFFFFFFF with nothing queued.
   */
  method CounterWrapTrace() returns (size: uint32, popped: bool)
    ensures popped && size == 0xFFFF_FFFF
  {
    var q := new SingleProducerQueue<int>(16);
    var ok := q.Publish(7);
    var outcome := q.TryPop(q.readIndex);
    popped := outcome.Popped?;
    q.CountDown();
    size := q.CountedSize();
  }
}
