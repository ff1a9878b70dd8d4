/**
 * ArrayLockFreeQueue: the facade. It owns one backend, chosen by Q_TYPE
 * (single producer unless asked otherwise), and forwards size(), full(),
 * push() and pop() to it. Q_SIZE defaults to LOCK_FREE_Q_DEFAULT_SIZE and the
 * usable capacity is Q_SIZE - 1.
 */
module LockFreeQueue {
  import opened Word32
  import opened RingIndex
  import opened Common
  import SingleProducer
  import MultipleProducers

  /** LOCK_FREE_Q_DEFAULT_SIZE, 2^16. */
  const DefaultSize: uint32 := 65536

  /** The Q_TYPE template argument. */
  datatype QueueType = OneProducer | ManyProducers

  class ArrayLockFreeQueue<T(0)> {
    const qSize: uint32
    const qType: QueueType
    /** m_qImpl when Q_TYPE is ArrayLockFreeQueueSingleProducer. */
    const single: SingleProducer.SingleProducerQueue?<T>
    /** m_qImpl when Q_TYPE is ArrayLockFreeQueueMultipleProducers. */
    const multiple: MultipleProducers.MultipleProducerQueue?<T>
    ghost const Repr: set<object>

    /**
     * Exactly the chosen backend exists and is valid. Whole push() calls go
     * through the facade, so no reservation of the multiple-producer backend
     * is outstanding between them.
     */
    ghost predicate Valid()
      reads this, Repr
    {
      && this in Repr
      && (qType == OneProducer ==>
            && single != null && multiple == null
            && Repr == {this, single, single.slots}
            && single.qSize == qSize && single.Valid())
      && (qType == ManyProducers ==>
            && multiple != null && single == null
            && Repr == {this, multiple, multiple.slots}
            && multiple.qSize == qSize && multiple.Valid()
            && multiple.writeIndex == multiple.maximumReadIndex)
    }

    /** The queued elements, oldest first, as the backend holds them. */
    ghost function Contents(): seq<T>
      requires Valid()
      reads this, Repr
    {
      if qType == OneProducer then single.Contents else multiple.Contents
    }

    /** The backend's capacity invariant, seen through the facade. */
    lemma ContentsFit()
      requires Valid()
      ensures |Contents()| <= qSize - 1
      ensures StableSize(qSize)
    {
      if qType == ManyProducers {
        multiple.CursorOrder();
      }
    }

    /** ArrayLockFreeQueue<ELEM_T, Q_SIZE, Q_TYPE>(): an empty queue over the chosen backend. */
    constructor (q: uint32, t: QueueType)
      requires StableSize(q)
      ensures Valid() && fresh(Repr)
      ensures qSize == q && qType == t && Contents() == []
    {
      qSize, qType := q, t;
      if t == OneProducer {
        var b := new SingleProducer.SingleProducerQueue<T>(q);
        single, multiple := b, null;
        Repr := {this, b, b.slots};
      } else {
        var b := new MultipleProducers.MultipleProducerQueue<T>(q);
        single, multiple := null, b;
        Repr := {this, b, b.slots};
      }
    }

    /** ArrayLockFreeQueue<ELEM_T>(): Q_SIZE 65536 and the single-producer backend. */
    constructor Default()
      ensures Valid() && fresh(Repr)
      ensures qSize == DefaultSize && qType == OneProducer && Contents() == []
    {
      qSize, qType := DefaultSize, OneProducer;
      var b := new SingleProducer.SingleProducerQueue<T>(DefaultSize);
      single, multiple := b, null;
      Repr := {this, b, b.slots};
    }

    /** push(): true if the element was inserted at the tail, false if the queue was full. */
    method Push(x: T) returns (ok: bool)
      requires Valid()
      modifies Repr
      ensures Valid()
      ensures ok <==> |old(Contents())| < qSize - 1
      ensures Contents() == if ok then old(Contents()) + [x] else old(Contents())
    {
      if qType == OneProducer {
        ok := single.Push(x);
      } else {
        ok := multiple.Push(x);
      }
    }

    /** pop(): true if the head was extracted into `x`, false (and `x` is `data`) if the queue was empty. */
    method Pop(data: T) returns (ok: bool, x: T)
      requires Valid()
      modifies Repr
      ensures Valid()
      ensures ok <==> old(Contents()) != []
      ensures ok ==> x == old(Contents())[0] && Contents() == old(Contents())[1..]
      ensures !ok ==> x == data && Contents() == old(Contents())
    {
      if qType == OneProducer {
        ok, x := single.Pop(data);
      } else {
        ok, x := multiple.Pop(data);
      }
    }

    /** size() with the backends' corrected size(): the number of queued elements. */
    function Size(): (n: uint32)
      requires Valid()
      reads this, Repr
      ensures n == |Contents()|
    {
      if qType == OneProducer then single.Size() else multiple.Size()
    }

    /** The queued elements wrap round the end of the backend's array: the slot of their end is below the slot of their head. */
    ghost predicate Wrapped()
      requires Valid()
      reads this, Repr
    {
      if qType == OneProducer then CountToIndex(single.writeIndex, qSize) < CountToIndex(single.readIndex, qSize)
      else CountToIndex(multiple.maximumReadIndex, qSize) < CountToIndex(multiple.readIndex, qSize)
    }

    /** size() as the facade forwards it, to the backend's size() as written: Q_SIZE too large when the elements wrap. */
    function SizeAsWritten(): (n: uint32)
      requires Valid()
      reads this, Repr
      ensures !Wrapped() ==> n == |Contents()|
      ensures Wrapped() ==> n == |Contents()| + qSize
    {
      if qType == OneProducer then single.SizeAsWritten() else multiple.SizeAsWritten()
    }

    /** full(): true exactly when Q_SIZE - 1 elements are queued. */
    predicate Full()
      requires Valid()
      reads this, Repr
      ensures Full() <==> |Contents()| == qSize - 1
    {
      if qType == OneProducer then single.Full() else multiple.Full()
    }
  }

  /**
   * The producer/consumer trace of the single-producer test on a queue of
   * Q_SIZE 16: 15 pushes fill it, the next push is rejected, 15 pops return
   * 0..14 in order, 5 more pushes and pops return 0..4, and a last pop finds
   * the queue empty.
   */
  method SingleProducerTrace() returns (filled: uint32, accepted: bool, first: seq<int>, second: seq<int>, last: bool)
    ensures filled == 15 && !accepted
    ensures first == Range(15) && second == Range(5)
    ensures !last
  {
    var q := new ArrayLockFreeQueue<int>(16, OneProducer);
    PushInOrder(q, 15);
    filled := q.Size();
    accepted := q.Push(0);
    first := PopAll(q, 15);
    PushInOrder(q, 5);
    second := PopAll(q, 5);
    var x;
    last, x := q.Pop(-1);
  }

  /** Pushes 0, 1, ..., n - 1 onto an empty queue with room for them. */
  method PushInOrder(q: ArrayLockFreeQueue<int>, n: nat)
    requires q.Valid() && q.Contents() == [] && n < q.qSize
    modifies q.Repr
    ensures q.Valid() && q.Contents() == Range(n)
  {
    var i := 0;
    while i < n
      invariant 0 <= i <= n
      invariant q.Valid() && q.Contents() == Range(i)
    {
      var ok := q.Push(i);
      RangeAppend(i);
      i := i + 1;
    }
  }

  /** Pops n times from a queue holding 0, 1, ..., n - 1, which come out in that order. */
  method PopAll(q: ArrayLockFreeQueue<int>, n: nat) returns (popped: seq<int>)
    requires q.Valid() && q.Contents() == Range(n)
    modifies q.Repr
    ensures q.Valid() && q.Contents() == [] && popped == Range(n)
  {
    var i := 0;
    popped := [];
    while i < n
      invariant 0 <= i <= n
      invariant q.Valid() && q.Contents() == Range(n)[i..] && popped == Range(i)
    {
      var ok, x := q.Pop(-1);
      RangeAppend(i);
      popped, i := popped + [x], i + 1;
    }
  }
}
