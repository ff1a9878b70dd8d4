/**
 * ArrayLockFreeQueueMultipleProducers: the ring buffer with a third cursor,
 * m_maximumReadIndex, behind which the consumers may read. A push is three
 * atomic steps, so that producers can interleave between them:
 *
 *   Reserve  - compare-and-swap of the write cursor from `seen` to `seen + 1`;
 *              cursor `seen` now belongs to this push alone;
 *   WriteSlot - the value goes into the slot of that cursor;
 *   Commit   - compare-and-swap of the commit cursor from the reserved cursor
 *              to the next one; it succeeds only for the oldest reservation.
 *
 * Between the read and the commit cursor lie the committed elements
 * (`Contents`); between the commit and the write cursor the outstanding
 * reservations, some of whose slots are already written (`Written`).
 * `Committed` and `Taken` record every element ever committed and ever popped.
 *
 * The commit loop as the source writes it hands the cursor that a failed
 * compare-and-swap found back to the next pass (`CommitPass`), which lets a
 * producer commit another producer's reservation (`CommitWriteBackTrace`);
 * `Commit` is the loop that keeps expecting its own cursor. The element
 * counter m_count moves in a step of its own after the commit or the pop
 * (`CountUp`, `CountDown`); `PendingAdds` and `PendingSubs` count the pushes
 * and pops that have not done that step yet.
 */
module MultipleProducers {
  import opened Word32
  import opened RingIndex

  /** The end of one pass of push()'s reservation loop. */
  datatype ReserveOutcome = QueueFull | Overtaken | Reserved(cursor: uint32)

  class MultipleProducerQueue<T(0)> {
    const qSize: uint32
    const slots: array<T>
    var writeIndex: uint32
    var readIndex: uint32
    var maximumReadIndex: uint32
    /** m_count, kept when _WITH_LOCK_FREE_Q_KEEP_REAL_SIZE is defined. */
    var count: uint32
    ghost var Contents: seq<T>
    ghost var Written: map<uint32, T>
    ghost var Committed: seq<T>
    ghost var Taken: seq<T>
    ghost var PendingAdds: nat
    ghost var PendingSubs: nat
    /** What m_count would hold without wrap-around. */
    ghost var Tally: int

    /** Cursor `c` is reserved by a push that has not committed yet. */
    ghost predicate Outstanding(c: uint32)
      reads this
    {
      Sub(c, maximumReadIndex) < Sub(writeIndex, maximumReadIndex)
    }

    ghost predicate Valid()
      reads this, slots
    {
      && StableSize(qSize)
      && slots.Length == qSize
      && Sub(maximumReadIndex, readIndex) + Sub(writeIndex, maximumReadIndex) < qSize
      && |Contents| == Sub(maximumReadIndex, readIndex)
      && Tally == |Contents| + PendingSubs - PendingAdds
      && count == Wrap(Tally)
      && Laid(slots[..], qSize, readIndex, Contents)
      && (forall c | c in Written ::
            Outstanding(c) && slots[CountToIndex(c, qSize)] == Written[c])
      && Taken + Contents == Committed
    }

    /** Cursors and distances of a valid queue: read <= commit <= write, at most Q_SIZE - 1 apart. */
    lemma CursorOrder()
      requires Valid()
      ensures Sub(writeIndex, readIndex) == |Contents| + Sub(writeIndex, maximumReadIndex)
      ensures Sub(writeIndex, readIndex) < qSize
    {
      SubSplit(writeIndex, maximumReadIndex, readIndex);
    }

    /** All three cursors start at 0. */
    constructor (q: uint32)
      requires StableSize(q)
      ensures Valid() && fresh(slots)
      ensures qSize == q && Contents == [] && Written == map[]
      ensures writeIndex == 0 && readIndex == 0 && maximumReadIndex == 0
      ensures PendingAdds == 0 && PendingSubs == 0
    {
      qSize := q;
      slots := new T[q];
      writeIndex, readIndex, maximumReadIndex, count := 0, 0, 0, 0;
      Contents, Written, Committed, Taken := [], map[], [], [];
      PendingAdds, PendingSubs, Tally := 0, 0, 0;
    }

    /**
     * One pass of the reservation loop, for a producer that loaded `seen` from
     * the write cursor: QueueFull when the slot after `seen` is the read
     * cursor's slot; otherwise the compare-and-swap reserves `seen` if the
     * write cursor still holds it, and Overtaken when another producer has
     * moved it first. Nothing but the write cursor changes.
     */
    method Reserve(seen: uint32) returns (outcome: ReserveOutcome)
      requires Valid()
      modifies this
      ensures Valid()
      ensures outcome.QueueFull? <==> FullTest(qSize, seen, readIndex)
      ensures outcome.Overtaken? <==> !FullTest(qSize, seen, readIndex) && seen != old(writeIndex)
      ensures seen == old(writeIndex) ==>
                (outcome.QueueFull? <==> Sub(old(writeIndex), readIndex) == qSize - 1)
      ensures outcome.Reserved? ==> outcome.cursor == seen && !old(Outstanding(seen)) && Outstanding(seen)
      ensures writeIndex == if outcome.Reserved? then Add(old(writeIndex), 1) else old(writeIndex)
      ensures forall c :: old(Outstanding(c)) ==> Outstanding(c)
      ensures readIndex == old(readIndex) && maximumReadIndex == old(maximumReadIndex)
      ensures Contents == old(Contents) && Written == old(Written)
      ensures Committed == old(Committed) && Taken == old(Taken)
      ensures count == old(count) && PendingAdds == old(PendingAdds) && PendingSubs == old(PendingSubs)
    {
      CursorOrder();
      FullIffAtCapacity(qSize, writeIndex, readIndex);
      if FullTest(qSize, seen, readIndex) {
        return QueueFull;
      }
      if writeIndex != seen {
        return Overtaken;
      }
      SubStepCursor(maximumReadIndex, writeIndex);
      writeIndex := Add(writeIndex, 1);
      outcome := Reserved(seen);
    }

    /** The reserving push stores its value in its cursor's slot; no committed element's slot is touched. */
    method WriteSlot(c: uint32, v: T)
      requires Valid() && Outstanding(c)
      modifies slots, this`Written
      ensures Valid()
      ensures Written == old(Written)[c := v]
      ensures slots[CountToIndex(c, qSize)] == v
    {
      var a, j := |Contents|, Sub(c, maximumReadIndex);
      AddThrough(readIndex, maximumReadIndex, c);
      LaidWrite(slots[..], qSize, readIndex, Contents, a + j, v);
      forall d | d in Written && d != c
        ensures CountToIndex(d, qSize) != CountToIndex(c, qSize)
      {
        DistinctCursorSlots(qSize, readIndex, maximumReadIndex, c, d);
      }
      slots[CountToIndex(c, qSize)] := v;
      assert slots[..] == old(slots[..])[CountToIndex(Add(readIndex, a + j), qSize) := v];
      Written := Written[c := v];
    }

    /**
     * One pass of the commit loop for the push that reserved `c` and wrote its
     * slot, with every pass expecting `c` itself: the compare-and-swap moves
     * the commit cursor from `c` to `c + 1` when it holds `c`, that is when `c`
     * is the oldest outstanding reservation, and the written value joins the
     * back of the queue. The counter is left for `CountUp`.
     */
    method Commit(c: uint32) returns (ok: bool)
      requires Valid() && c in Written
      modifies this
      ensures Valid()
      ensures ok <==> old(maximumReadIndex) == c
      ensures ok ==> (&& Contents == old(Contents) + [old(Written)[c]]
                      && Committed == old(Committed) + [old(Written)[c]]
                      && maximumReadIndex == Add(c, 1)
                      && Written == old(Written) - {c}
                      && PendingAdds == old(PendingAdds) + 1)
      ensures !ok ==> (&& Contents == old(Contents) && Committed == old(Committed)
                       && maximumReadIndex == old(maximumReadIndex) && Written == old(Written)
                       && PendingAdds == old(PendingAdds))
      ensures writeIndex == old(writeIndex) && readIndex == old(readIndex) && Taken == old(Taken)
      ensures count == old(count) && PendingSubs == old(PendingSubs)
    {
      if maximumReadIndex != c {
        return false;
      }
      var v := Written[c];
      AddOfSub(maximumReadIndex, readIndex);
      LaidAppend(slots[..], qSize, readIndex, Contents, v);
      CommitCursors(readIndex, c, writeIndex);
      forall d | d in Written && d != c
        ensures Sub(d, Add(c, 1)) < Sub(writeIndex, Add(c, 1))
      {
        OutstandingStep(c, writeIndex, d);
      }
      maximumReadIndex := Add(c, 1);
      Contents := Contents + [v];
      Committed := Committed + [v];
      Written := Written - {c};
      PendingAdds := PendingAdds + 1;
      ok := true;
    }

    /**
     * One pass of the commit loop as the source writes it:
     * `compare_exchange_weak(expected, expected + 1)` on the commit cursor.
     * On failure the cursor it found is written back into `expected`, and the
     * next pass starts from that `observed` value. When the pushing producer
     * reserved and wrote `expected` and the pass fails, the cursor it hands on
     * is another producer's outstanding reservation.
     */
    method CommitPass(expected: uint32) returns (ok: bool, observed: uint32)
      modifies this`maximumReadIndex
      ensures ok <==> old(maximumReadIndex) == expected
      ensures observed == old(maximumReadIndex)
      ensures maximumReadIndex == if ok then Add(expected, 1) else old(maximumReadIndex)
      ensures old(Valid()) && expected in Written && !ok ==> observed != expected && Outstanding(observed)
    {
      observed := maximumReadIndex;
      ok := maximumReadIndex == expected;
      if ok {
        maximumReadIndex := Add(expected, 1);
      }
    }

    /** `m_count.fetch_add(1)` at the end of a push whose commit succeeded. */
    method CountUp()
      requires Valid() && PendingAdds > 0
      modifies this
      ensures Valid()
      ensures count == Add(old(count), 1) && PendingAdds == old(PendingAdds) - 1
      ensures PendingSubs == old(PendingSubs) && Contents == old(Contents) && Written == old(Written)
      ensures writeIndex == old(writeIndex) && readIndex == old(readIndex)
      ensures maximumReadIndex == old(maximumReadIndex)
    {
      WrapStep(Tally);
      count := Add(count, 1);
      PendingAdds, Tally := PendingAdds - 1, Tally + 1;
    }

    /** `m_count.fetch_sub(1)` at the end of a pop whose compare-and-swap succeeded. */
    method CountDown()
      requires Valid() && PendingSubs > 0
      modifies this
      ensures Valid()
      ensures count == Sub(old(count), 1) && PendingSubs == old(PendingSubs) - 1
      ensures PendingAdds == old(PendingAdds) && Contents == old(Contents) && Written == old(Written)
      ensures writeIndex == old(writeIndex) && readIndex == old(readIndex)
      ensures maximumReadIndex == old(maximumReadIndex)
    {
      WrapStep(Tally);
      count := Sub(count, 1);
      PendingSubs, Tally := PendingSubs - 1, Tally - 1;
    }

    /**
     * One pass of pop()'s retry loop, for a consumer that loaded `seen` from
     * the read cursor: Empty when `seen`'s slot is the commit cursor's slot,
     * even if reserved slots lie beyond it; otherwise the element in `seen`'s
     * slot is taken if the compare-and-swap still finds `seen` in the read
     * cursor, and Lost, with the copy already made into the caller's
     * variable, when another consumer has moved it first.
     */
    method TryPop(seen: uint32) returns (outcome: PopOutcome<T>)
      requires Valid()
      modifies this
      ensures Valid()
      ensures outcome.Empty? <==> EmptyTest(qSize, seen, maximumReadIndex)
      ensures outcome.Lost? <==> !EmptyTest(qSize, seen, maximumReadIndex) && seen != old(readIndex)
      ensures outcome.Lost? ==> outcome.read == slots[CountToIndex(seen, qSize)]
      ensures seen == old(readIndex) ==> (outcome.Empty? <==> old(Contents) == [])
      ensures outcome.Popped? ==> old(Contents) != [] && outcome.value == old(Contents)[0]
      ensures Contents == if outcome.Popped? then old(Contents)[1..] else old(Contents)
      ensures Taken == if outcome.Popped? then old(Taken) + [outcome.value] else old(Taken)
      ensures readIndex == if outcome.Popped? then Add(old(readIndex), 1) else old(readIndex)
      ensures writeIndex == old(writeIndex) && maximumReadIndex == old(maximumReadIndex)
      ensures Written == old(Written) && Committed == old(Committed)
      ensures PendingSubs == if outcome.Popped? then old(PendingSubs) + 1 else old(PendingSubs)
      ensures count == old(count) && PendingAdds == old(PendingAdds)
    {
      EmptyIffEqual(qSize, readIndex, maximumReadIndex);
      if EmptyTest(qSize, seen, maximumReadIndex) {
        return Empty;
      }
      var x := slots[CountToIndex(seen, qSize)];
      if readIndex != seen {
        return Lost(x);
      }
      LaidPop(slots[..], qSize, readIndex, Contents);
      SubStepBase(readIndex, maximumReadIndex);
      assert Taken + [x] + Contents[1..] == Taken + Contents;
      readIndex := Add(readIndex, 1);
      Taken := Taken + [x];
      Contents := Contents[1..];
      PendingSubs := PendingSubs + 1;
      outcome := Popped(x);
    }

    /**
     * push() by a producer that no other push overlaps: reservation, slot
     * write and commit each succeed on their first pass, so the backend
     * behaves as the single-producer one; the counter step ends it.
     */
    method Push(x: T) returns (ok: bool)
      requires Valid() && writeIndex == maximumReadIndex
      modifies this, slots
      ensures Valid() && writeIndex == maximumReadIndex
      ensures ok <==> |old(Contents)| < qSize - 1
      ensures Contents == if ok then old(Contents) + [x] else old(Contents)
      ensures readIndex == old(readIndex)
      ensures writeIndex == if ok then Add(old(writeIndex), 1) else old(writeIndex)
      ensures PendingAdds == old(PendingAdds) && PendingSubs == old(PendingSubs)
    {
      CursorOrder();
      var reserved := Reserve(writeIndex);
      match reserved
      case QueueFull =>
        ok := false;
      case Overtaken =>
        assert false;
      case Reserved(c) =>
        WriteSlot(c, x);
        ok := Commit(c);
        CountUp();
        assert Written == map[] by {
          forall d | d in Written
            ensures false
          {
          }
        }
    }

    /** pop() by a consumer that no other pop overlaps; `data` is left as it was when nothing is committed. */
    method Pop(data: T) returns (ok: bool, x: T)
      requires Valid()
      modifies this
      ensures Valid()
      ensures ok <==> old(Contents) != []
      ensures ok ==> x == old(Contents)[0] && Contents == old(Contents)[1..]
      ensures !ok ==> x == data && Contents == old(Contents)
      ensures writeIndex == old(writeIndex) && maximumReadIndex == old(maximumReadIndex)
      ensures PendingAdds == old(PendingAdds) && PendingSubs == old(PendingSubs)
    {
      var outcome := TryPop(readIndex);
      match outcome
      case Empty =>
        ok, x := false, data;
      case Lost(_) =>
        assert false;
      case Popped(v) =>
        CountDown();
        ok, x := true, v;
    }

    /** size() with its else branch on slot indices: the number of committed elements. */
    function Size(): (n: uint32)
      requires Valid()
      reads this, slots
      ensures n == |Contents|
    {
      SizeCountsElements(qSize, maximumReadIndex, readIndex);
      RingIndex.Size(qSize, maximumReadIndex, readIndex)
    }

    /** size() as the source writes it: Q_SIZE too large whenever the committed elements wrap round the array end. */
    function SizeAsWritten(): (n: uint32)
      requires Valid()
      reads this, slots
      ensures CountToIndex(maximumReadIndex, qSize) >= CountToIndex(readIndex, qSize) ==> n == |Contents|
      ensures CountToIndex(maximumReadIndex, qSize) < CountToIndex(readIndex, qSize) ==> n == |Contents| + qSize
    {
      if CountToIndex(maximumReadIndex, qSize) < CountToIndex(readIndex, qSize) then
        SizeAsWrittenOvershoots(qSize, maximumReadIndex, readIndex);
        RingIndex.SizeAsWritten(qSize, maximumReadIndex, readIndex)
      else
        RingIndex.SizeAsWritten(qSize, maximumReadIndex, readIndex)
    }

    /**
     * size() with _WITH_LOCK_FREE_Q_KEEP_REAL_SIZE: the counter. It is the
     * number of committed elements once every push and pop has done its
     * counter step, and lags by the steps still pending otherwise, wrapping
     * round below 0.
     */
    function CountedSize(): (n: uint32)
      requires Valid()
      reads this, slots
      ensures PendingAdds == 0 && PendingSubs == 0 ==> n == |Contents|
      ensures n == Wrap(|Contents| + PendingSubs - PendingAdds)
    {
      count
    }

    /** full(): decided on the write cursor, so outstanding reservations count as occupied slots. */
    predicate Full()
      requires Valid()
      reads this, slots
      ensures Full() <==> |Contents| + Sub(writeIndex, maximumReadIndex) == qSize - 1
    {
      SubSplit(writeIndex, maximumReadIndex, readIndex);
      FullIffAtCapacity(qSize, writeIndex, readIndex);
      FullTest(qSize, writeIndex, readIndex)
    }

    /** full() with _WITH_LOCK_FREE_Q_KEEP_REAL_SIZE: the counter equals Q_SIZE - 1, exact only with no counter step pending. */
    predicate CountedFull()
      requires Valid()
      reads this, slots
      ensures PendingAdds == 0 && PendingSubs == 0 ==> (CountedFull() <==> |Contents| == qSize - 1)
      ensures CountedFull() <==> Wrap(|Contents| + PendingSubs - PendingAdds) == qSize - 1
    {
      count == qSize - 1
    }
  }

  /**
   * The commit loop as written, on a queue of Q_SIZE 16: producer A reserves
   * cursor 0; producer B reserves cursor 1 and writes its slot. B's first
   * pass fails and hands on the cursor it found, 0, so B's second pass
   * succeeds and moves the commit cursor past A's reservation. A pop now
   * passes the empty test and reads slot 0, which A has not written.
   */
  method CommitWriteBackTrace() returns (q: MultipleProducerQueue<int>, firstPass: bool, secondPass: bool)
    ensures !firstPass && secondPass
    ensures q.qSize == 16 && q.readIndex == 0 && q.maximumReadIndex == 1
    ensures !EmptyTest(q.qSize, q.readIndex, q.maximumReadIndex)
    ensures 0 !in q.Written && 1 in q.Written
  {
    q := new MultipleProducerQueue<int>(16);
    var a := q.Reserve(0);
    var b := q.Reserve(1);
    q.WriteSlot(1, 20);
    var expected;
    firstPass, expected := q.CommitPass(1);
    secondPass, expected := q.CommitPass(expected);
  }
}
