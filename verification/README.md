# A Dafny model of the lock-free queue, SafeQueue, VTimer and two scripts

This project models the core of a small C++ and Python toolbox:

- **`ArrayLockFreeQueue`** is a ring buffer of `Q_SIZE` slots with `uint32_t` cursors that wrap round. It comes with two backends:
  - `ArrayLockFreeQueueSingleProducer` has one producer and consumers that advance the read cursor with a compare-and-swap.
  - `ArrayLockFreeQueueMultipleProducers` lets producers reserve a cursor, write its slot and then commit through a third cursor, `m_maximumReadIndex`.
- **`SafeQueue`** is a bounded FIFO behind a mutex and a condition variable. The model covers its data side and whether each operation wakes waiters.
- **`VTimer`** is a virtual timer driven by the times passed to `Update`. It calls its callback when an expiry time is reached.
- **`log_merger.py`** merges timestamped log files by always writing the pending message with the smallest date.
- **`random_udp.py`** has two header builders: the UDP header of RFC 768 and the IPv4 header of section 3.1 of RFC 791.

Modules and files:

| file | module | models |
|---|---|---|
| word32.dfy | `Word32` | `uint32_t` cursor arithmetic (`+`, `-` modulo 2^32) |
| ring_index.dfy | `RingIndex` | `countToIndex`, the full/empty tests, `size()`, slot layout |
| single_producer_queue.dfy | `SingleProducer` | `ArrayLockFreeQueueSingleProducer` |
| multiple_producer_queue.dfy | `MultipleProducers` | `ArrayLockFreeQueueMultipleProducers` |
| lock_free_queue.dfy | `LockFreeQueue` | the `ArrayLockFreeQueue` facade and its test trace |
| safe_queue.dfy | `SafeQueues` | `SafeQueue` |
| vtimer.dfy | `VirtualTimer` | `VTimer` |
| log_merger.dfy | `LogMerger` | `read_next_msg` and the merge loop |
| packet_headers.dfy | `RandomUdp` | `build_udp_header`, `build_ip_header` |
| common.dfy | `Common` | `Option`, `Range` |

### How the model is built

**The lock-free queues.**
- Each backend is a class. It holds the slot array, the cursors and the `m_count` counter, plus a ghost `Contents` sequence for the queued elements.
- Each method is one pass of the source taken atomically at its compare-and-swap or store. The loads before that point are read at that same moment, except for the cursor the thread loaded at the start of the pass, which is a parameter. A compare-and-swap retry loop becomes such a single pass (`TryPop`, `Reserve`, `Commit`).
- The `m_count` update of `_WITH_LOCK_FREE_Q_KEEP_REAL_SIZE` is a step of its own (`CountUp`, `CountDown`), after the cursor has moved. Ghost counters `PendingAdds` and `PendingSubs` record the pushes and pops that have not done it yet, so `Valid()` states how far the counter lags.
- The commit loop of the multiple-producer push is modelled twice. `CommitPass` is one pass as written: a failed compare-and-swap writes the cursor it found into the expected value. `Commit` is the corrected pass, which keeps expecting the producer's own cursor (Finding 4).
- `Valid()` ties the array and the cursors to `Contents`. Element `i` lies in the slot of cursor `read + i`.
- The queue classes require `Q_SIZE` to divide 2^32, as the header asks (a power of two). The lemmas in `RingIndex` show what goes wrong without it.

**SafeQueue.**
- `SafeQueue` keeps `m_theQueue` as a sequence and `m_maximumSize` as a number.
- A blocking operation is modelled from the moment its wait ends. Each `notify_all` decision becomes a returned flag.

**VTimer.**
- `VTimer` keeps `m_nextExpiryTime` and `m_period`. The callback becomes a ghost log of the times it was called with.
- The functions `NextExpiry`, `Firings` and `Replay` describe a sequence of `Update` calls.

**The log merger.**
- An input file is the sequence of lines `readline` returns. An open file handle is a position in that sequence.
- The regular expression is a matcher from a line to its two named groups. The default pattern is modelled in full.
- `strptime` is a function parameter from the date text to an ordered key.

**The header builders.**
- They are byte-string encoders. Each one has a decoder, and the two are proved inverse.

## Model

| member | source | states |
|---|---|---|
| RingIndex.CountToIndex | cpp/lock_free_queue_impl_single_producer.h:55-62 | the slot of a cursor is always a valid array index (below Q_SIZE) |
| RingIndex.RolloverContiguous | cpp/lock_free_queue.h:78-90 | when Q_SIZE divides 2^32, the slot after cursor c's slot, cyclically, is the slot of c + 1, including at the rollover from 0xFFFFFFFF to 0 |
| RingIndex.FullIffAtCapacity | cpp/lock_free_queue_impl_single_producer.h:128-133 | the full test (slot of w + 1 equals slot of r) holds exactly when Q_SIZE - 1 elements lie between the cursors |
| RingIndex.EmptyIffEqual | cpp/lock_free_queue_impl_single_producer.h:158-163 | the empty test (slot of r equals slot of w) holds exactly when the cursors are equal |
| RingIndex.SizeCountsElements | cpp/lock_free_queue_impl_single_producer.h:86-93 | size() with its else branch computed on slot indices equals the number of elements between the cursors |
| RingIndex.SizeAsWrittenOvershoots | cpp/lock_free_queue_impl_single_producer.h:90-93 | when the occupied slots wrap round the array end, `Q_SIZE + w - r` is the element count plus Q_SIZE |
| RingIndex.SizeAsWrittenExample | cpp/lock_free_queue_impl_single_producer.h:86-93 | with Q_SIZE 16, w 17 and r 3, 14 elements are queued but size() reports 30 |
| RingIndex.RolloverSkipsSlots | cpp/lock_free_queue.h:91-96 | with Q_SIZE 100 cursor 0xFFFFFFFF maps to slot 95 and its successor 0 to slot 0 |
| RingIndex.RolloverOverwritesUnread | cpp/lock_free_queue_impl_single_producer.h:128-139 | with Q_SIZE 100, from read cursor 0xFFFFFF9D, the full test stays false for 195 pushes; the push at distance 99 writes the slot of the unread element at distance 3 |
| RingIndex.LaidPop | cpp/lock_free_queue_impl_single_producer.h:166 | the read cursor's slot holds the oldest element, and the others stay laid out from the next cursor |
| RingIndex.LaidAppend | cpp/lock_free_queue_impl_single_producer.h:136-139 | an element written into the slot of the next cursor joins the back of the queue |
| RingIndex.LaidWrite | cpp/lock_free_queue_impl_single_producer.h:135-136 | writing a slot fewer than Q_SIZE cursors past the read cursor, beyond the queued elements, moves none of them |
| RingIndex.DistinctCursorSlots | cpp/lock_free_queue_impl_multiple_producer.h:150-151 | two different reserved cursors within Q_SIZE - 1 of the read cursor own different slots |
| SingleProducer.SingleProducerQueue.constructor | cpp/lock_free_queue_impl_single_producer.h:42-49 | both cursors and the counter start at 0; the queue is empty |
| SingleProducer.SingleProducerQueue.Publish | cpp/lock_free_queue_impl_single_producer.h:120-139 | push up to the write cursor's fetch_add succeeds exactly when fewer than Q_SIZE - 1 elements are queued; it then appends the element, advances the write cursor by one, leaves the read cursor and the counter alone and leaves one counter step pending; otherwise nothing changes |
| SingleProducer.SingleProducerQueue.CountUp | cpp/lock_free_queue_impl_single_producer.h:141-144 | m_count.fetch_add(1) wraps the counter up by one and settles one pending push; the queue is unchanged |
| SingleProducer.SingleProducerQueue.CountDown | cpp/lock_free_queue_impl_single_producer.h:179-183 | m_count.fetch_sub(1) wraps the counter down by one and settles one pending pop; the queue is unchanged |
| SingleProducer.SingleProducerQueue.Push | cpp/lock_free_queue_impl_single_producer.h:120-147 | a whole push succeeds exactly when fewer than Q_SIZE - 1 elements are queued; it then appends the element, advances the write cursor by one and leaves the read cursor alone; otherwise nothing changes; no counter step is left pending |
| SingleProducer.SingleProducerQueue.TryPop | cpp/lock_free_queue_impl_single_producer.h:149-191 | one pass of pop's retry loop with the loaded cursor `seen`: Empty iff seen's slot is the write cursor's; Lost iff not empty and the CAS finds the cursor moved, carrying the slot value already copied into the caller's variable; otherwise the oldest element is returned and removed, the read cursor advances and the counter step is left pending |
| SingleProducer.SingleProducerQueue.Pop | cpp/lock_free_queue_impl_single_producer.h:149-198 | an uncontended pop returns false on an empty queue and leaves the caller's data alone; otherwise it returns and removes the front element and does its counter step |
| SingleProducer.SingleProducerQueue.Size | cpp/lock_free_queue_impl_single_producer.h:64-95 | size(), corrected, is the number of queued elements |
| SingleProducer.SingleProducerQueue.SizeAsWritten | cpp/lock_free_queue_impl_single_producer.h:86-93 | size() as written equals the element count unless the elements wrap round the array end, where it is Q_SIZE too large |
| SingleProducer.SingleProducerQueue.CountedSize | cpp/lock_free_queue_impl_single_producer.h:68-69 | with _WITH_LOCK_FREE_Q_KEEP_REAL_SIZE, size() is the number of queued elements once no counter step is pending; otherwise it is that number plus pending pops minus pending pushes, wrapped to 32 bits |
| SingleProducer.SingleProducerQueue.Full | cpp/lock_free_queue_impl_single_producer.h:97-118 | full() holds exactly when Q_SIZE - 1 elements are queued |
| SingleProducer.SingleProducerQueue.CountedFull | cpp/lock_free_queue_impl_single_producer.h:101-102 | the counter version of full() holds exactly when the lagging count is Q_SIZE - 1, which with no counter step pending means Q_SIZE - 1 queued elements |
| SingleProducer.CounterWrapTrace | cpp/lock_free_queue_impl_single_producer.h:139-183 | a pop between a push's cursor step and its counter step on an empty queue makes the counter, and size(), 0xFFFFFFFF |
| MultipleProducers.MultipleProducerQueue.CursorOrder | cpp/lock_free_queue.h:254-262 | the commit cursor lies between the read and the write cursor, which are at most Q_SIZE - 1 apart |
| MultipleProducers.MultipleProducerQueue.constructor | cpp/lock_free_queue_impl_multiple_producer.h:43-51 | all three cursors start at 0; nothing is queued or reserved |
| MultipleProducers.MultipleProducerQueue.Reserve | cpp/lock_free_queue_impl_multiple_producer.h:131-148 | one pass of the reservation loop: QueueFull iff the slot after `seen` is the read cursor's; Overtaken iff the CAS finds the write cursor moved; otherwise `seen` becomes a new outstanding reservation and only the write cursor changes |
| MultipleProducers.MultipleProducerQueue.WriteSlot | cpp/lock_free_queue_impl_multiple_producer.h:150-151 | storing into a reserved cursor's slot records the value and disturbs no queued element or other reservation |
| MultipleProducers.MultipleProducerQueue.Commit | cpp/lock_free_queue_impl_multiple_producer.h:153-170 | the corrected commit pass, expecting the producer's own cursor: the CAS succeeds exactly for the oldest outstanding reservation; the value written for it joins the back of the queue, the commit cursor advances and the counter step is left pending; otherwise nothing changes |
| MultipleProducers.MultipleProducerQueue.CommitPass | cpp/lock_free_queue_impl_multiple_producer.h:162-170 | one pass of the commit loop as written: the CAS succeeds iff the commit cursor holds `expected`, and hands on the cursor it found; after a failed pass by the producer that wrote `expected`, that cursor is another producer's outstanding reservation |
| MultipleProducers.MultipleProducerQueue.CountUp | cpp/lock_free_queue_impl_multiple_producer.h:172-175 | m_count.fetch_add(1) wraps the counter up by one and settles one pending push |
| MultipleProducers.MultipleProducerQueue.CountDown | cpp/lock_free_queue_impl_multiple_producer.h:207-211 | m_count.fetch_sub(1) wraps the counter down by one and settles one pending pop |
| MultipleProducers.CommitWriteBackTrace | cpp/lock_free_queue_impl_multiple_producer.h:129-170 | Q_SIZE 16: A reserves 0, B reserves 1 and writes it; B's first commit pass fails and its second commits cursor 0, so a pop passes the empty test while slot 0 is unwritten |
| MultipleProducers.MultipleProducerQueue.TryPop | cpp/lock_free_queue_impl_multiple_producer.h:180-219 | one pass of pop's retry loop: Empty iff seen's slot is the commit cursor's, so reserved but uncommitted slots are never read; Lost iff the CAS finds the cursor moved, carrying the slot value already copied into the caller's variable; otherwise the oldest committed element is returned and removed |
| MultipleProducers.MultipleProducerQueue.Push | cpp/lock_free_queue_impl_multiple_producer.h:126-178 | an uncontended push succeeds exactly when fewer than Q_SIZE - 1 elements are queued, and appends the element |
| MultipleProducers.MultipleProducerQueue.Pop | cpp/lock_free_queue_impl_multiple_producer.h:180-226 | an uncontended pop returns false when nothing is committed; otherwise it returns and removes the front element |
| MultipleProducers.MultipleProducerQueue.Size | cpp/lock_free_queue_impl_multiple_producer.h:66-99 | size(), corrected, is the number of committed elements |
| MultipleProducers.MultipleProducerQueue.SizeAsWritten | cpp/lock_free_queue_impl_multiple_producer.h:90-97 | size() as written is Q_SIZE too large when the committed elements wrap round the array end |
| MultipleProducers.MultipleProducerQueue.CountedSize | cpp/lock_free_queue_impl_multiple_producer.h:70-72 | with _WITH_LOCK_FREE_Q_KEEP_REAL_SIZE, size() is the number of committed elements once no counter step is pending; otherwise it is that number plus pending pops minus pending pushes, wrapped to 32 bits |
| MultipleProducers.MultipleProducerQueue.Full | cpp/lock_free_queue_impl_multiple_producer.h:101-124 | full() holds exactly when committed elements plus outstanding reservations number Q_SIZE - 1 |
| MultipleProducers.MultipleProducerQueue.CountedFull | cpp/lock_free_queue_impl_multiple_producer.h:105-107 | the counter version of full() holds exactly when the lagging count is Q_SIZE - 1, which with no counter step pending means Q_SIZE - 1 committed elements |
| LockFreeQueue.ArrayLockFreeQueue.ContentsFit | cpp/lock_free_queue.h:77-79 | the queue never holds more than Q_SIZE - 1 elements |
| LockFreeQueue.ArrayLockFreeQueue.constructor | cpp/lock_free_queue.h:100-108 | a new queue over the chosen backend is empty |
| LockFreeQueue.ArrayLockFreeQueue.Default | cpp/lock_free_queue.h:100-108 | the default queue has Q_SIZE 65536 and the single-producer backend |
| LockFreeQueue.ArrayLockFreeQueue.Push | cpp/lock_free_queue.h:131-137 | push inserts at the tail and returns true, or returns false and leaves the queue as it was when it is full |
| LockFreeQueue.ArrayLockFreeQueue.Pop | cpp/lock_free_queue.h:139-143 | pop extracts the head and returns true, or returns false on an empty queue |
| LockFreeQueue.ArrayLockFreeQueue.Size | cpp/lock_free_queue.h:115-123 | size(), corrected as in the backends, is the number of queued elements |
| LockFreeQueue.ArrayLockFreeQueue.SizeAsWritten | cpp/lock_free_queue.h:115-123 | size() as forwarded to the backend's size() as written: the number of queued elements, or Q_SIZE more when they wrap round the array end |
| LockFreeQueue.ArrayLockFreeQueue.Full | cpp/lock_free_queue.h:125-129 | full() holds exactly when Q_SIZE - 1 elements are queued |
| LockFreeQueue.SingleProducerTrace | cpp/test/lock_free_single_producer_q_test.cpp:114-164 | with Q_SIZE 16: 15 pushes give size 15; the 16th push is refused; 15 pops return 0..14 in order; 5 more return 0..4; the last pop finds the queue empty |
| SafeQueues.SafeQueue.constructor | cpp/safe_queue_impl.h:42-49 | a new queue is empty with the given maximum size |
| SafeQueues.SafeQueue.Copy | cpp/safe_queue_impl.h:56-72 | the copy of a valid queue is valid and holds the source's elements and maximum size |
| SafeQueues.SafeQueue.WakeUpSignalNeeded | cpp/safe_queue_impl.h:146-162 | true iff taking over the source frees a waiter: this queue empty and the source not, or this queue at its bound and the source below its own |
| SafeQueues.SafeQueue.TryPush | cpp/safe_queue_impl.h:192-213 | appends exactly when the size is below the maximum and reports it; waiters are notified iff the queue was empty before, even when the push fails |
| SafeQueues.SafeQueue.Push | cpp/safe_queue_impl.h:171-190 | once the wait has ended (size below the maximum) it appends, and notifies iff the queue was empty |
| SafeQueues.SafeQueue.TryPop | cpp/safe_queue_impl.h:237-260 | on an empty queue returns false and changes nothing; otherwise returns and removes the front, notifying iff the size was at or over the maximum |
| SafeQueues.SafeQueue.Pop | cpp/safe_queue_impl.h:215-235 | once the wait has ended (queue not empty) it returns and removes the front, notifying iff the queue was at or over its bound |
| SafeQueues.SafeQueue.TimedWaitPop | cpp/safe_queue_impl.h:262-294 | after the wait: false with nothing changed when the queue is still empty, otherwise as TryPop |
| SafeQueues.SafeQueue.Assign | cpp/safe_queue_impl.h:74-101 | self-assignment changes nothing; otherwise this queue takes the source's elements and maximum size and notifies exactly when a waiter's condition turns from blocked to free |
| SafeQueues.SafeQueue.MoveAssign | cpp/safe_queue_impl.h:118-144 | as Assign for this queue, with the notify decision taken before the move |
| SafeQueues.CapacityTenTrace | safe_queue_test.cpp:102-153 | with a bound of 10: TryPush(11) is refused on a full queue; pops return 0..9, then TimedWaitPop returns 0..4 in order; the last TimedWaitPop reports false |
| VirtualTimer.NextExpiry | cpp/vtimer.h:103-125 | the next expiry is never 0, never earlier than before and never earlier than the update time; the first Update arms it a period after the update time, or at 1 when that sum is 0; an unfired armed timer keeps it; a firing sets it a period after the update time |
| VirtualTimer.Replay | cpp/vtimer.h:103-125 | one firing decision per Update |
| VirtualTimer.FiringsAppend | cpp/vtimer.h:103-125 | a sequence of Updates fires as its first part does, then as the second part does from the expiry the first left |
| VirtualTimer.ReplayAppend | cpp/vtimer.h:103-125 | as FiringsAppend, for the per-Update firing decisions |
| VirtualTimer.FiringsSpaced | cpp/vtimer.h:120-123 | an armed timer fires no earlier than its expiry and each later firing at least a period after the previous one |
| VirtualTimer.ZeroTimeNeverFires | cpp/vtimer.h:97-101 | an Update at time 0 never calls the callback, and no callback call is made with time 0 |
| VirtualTimer.BackwardsNeverFires | cpp/vtimer.h:97-101 | an Update at a time earlier than the previous Update's never calls the callback |
| VirtualTimer.FiringsAreReplayed | cpp/vtimer.h:103-125 | the callback is called with exactly the times of the Updates that fire, in order |
| VirtualTimer.PeriodTenTrace | cpp/test/vtimer_test.cpp:35-65 | period 10 and the test's 14 update times: the callback is called at 11, 21, 34 and 44 |
| VirtualTimer.PeriodZeroTrace | cpp/test/vtimer_test.cpp:70-90 | period 0: of the 9 Updates the 3rd, 5th, 6th, 7th and 9th call the callback |
| VirtualTimer.VTimer.constructor | cpp/vtimer.h:78-84 | the timer starts unarmed (next expiry 0) with no calls |
| VirtualTimer.VTimer.Update | cpp/vtimer.h:103-125 | the next expiry and the callback log advance exactly as one step of NextExpiry and Firings |
| LogMerger.DefaultPattern | log_merger.py:53-53 | a match yields a non-empty date without `]` and a non-empty message without a newline, and the line starts with `[date] msg` |
| LogMerger.DefaultPatternReads | log_merger.py:53-53 | a line written `[date] msg` matches with exactly those groups |
| LogMerger.Rstrip | log_merger.py:102-102 | rstrip removes exactly the trailing whitespace: a prefix, ending in non-space, with only whitespace cut |
| LogMerger.DefaultDecodes | log_merger.py:102-105 | with the default pattern a line `[date] msg` decodes to msg at strptime(date) |
| LogMerger.NextMsg | log_merger.py:93-110 | read_next_msg returns the first message of the rest of the file and consumes up to its line, or None at end of file |
| LogMerger.ReadNextMsg | log_merger.py:93-110 | the readline loop returns what NextMsg specifies |
| LogMerger.Advance | log_merger.py:97-106 | reading from a handle returns its next message and shortens what is left to read |
| LogMerger.FirstMinIndex | log_merger.py:193-193 | `dates_list.index(min(dates_list))` is the first index holding the smallest date |
| LogMerger.Remove | log_merger.py:207-209 | `del s[k]` removes exactly the element at k and keeps the others in order |
| LogMerger.StepAt | log_merger.py:200-209 | one loop iteration keeps the lists well formed and reads a line or closes a file |
| LogMerger.MergeLoop | log_merger.py:192-209 | the while loop writes the messages in the order Run gives |
| LogMerger.Unopened | log_merger.py:150-162 | before the opening loop nothing is pending and, as written, file_list already names every input |
| LogMerger.Opened | log_merger.py:183-190 | after the first n inputs are opened, at most n messages are pending; with file_list kept aligned it has one entry per pending message; as written it lists every input |
| LogMerger.OpenAll | log_merger.py:183-190 | the opening loop reads each input's first message |
| LogMerger.MergeAsWritten | log_merger.py:150-209 | the main program's output; when every input has a message it equals the aligned merge |
| LogMerger.Merge | log_merger.py:183-209 | with file_list aligned, every message of every input is written exactly once, and in date order if each input is |
| LogMerger.RunEmitsPending | log_merger.py:192-209 | from an aligned state the loop writes exactly the pending messages, as a multiset |
| LogMerger.RunSorted | log_merger.py:192-209 | from an aligned state whose files lead with their pending messages, the output is in date order |
| LogMerger.StepPending | log_merger.py:195-209 | one iteration writes one pending message and leaves the rest pending |
| LogMerger.StepAligned | log_merger.py:200-209 | an iteration keeps file_list aligned with dates_list |
| LogMerger.OpenedHeadsLead | log_merger.py:185-190 | opening sorted inputs leaves each open file's rest no earlier than its pending message |
| LogMerger.AllHaveMessages | log_merger.py:150-190 | when every input has a message, the lists as written equal the aligned ones |
| LogMerger.MergeAsWrittenDropsMessage | log_merger.py:150-209 | with inputs `["junk"]` and `["[1] x", "[2] y"]` the program writes only x, though both x and y are messages |
| RandomUdp.Be16 | scripts/random_udp.py:98-102 | `!H` packs a 16-bit value into two bytes that read back as that value |
| RandomUdp.Be16OfWord16 | scripts/random_udp.py:98-102 | two bytes are the `!H` packing of the value they spell |
| RandomUdp.DecodeEncodeUdp | scripts/random_udp.py:132-133 | every UDP header reads back as itself |
| RandomUdp.EncodeDecodeUdp | scripts/random_udp.py:132-133 | every 8-byte string is the packing of the header it reads as |
| RandomUdp.BuildUdpHeader | scripts/random_udp.py:106-135 | fails exactly when a field does not fit 16 bits; otherwise the header reads back with source port (the destination port when it is DEFAULT_SRC_PORT 0), destination port, length + 8 and checksum 0 |
| RandomUdp.RawPacketFits | scripts/random_udp.py:353-359 | with the validated ports and MTU and a length drawn from 1..MTU-28, the UDP header is always built and IP header, UDP header and data fit the MTU |
| RandomUdp.NibblesOfByte | scripts/random_udp.py:85-87 | the first byte, the version shifted left by four bits combined with the IHL, gives back both fields |
| RandomUdp.DecodeEncodeIp | scripts/random_udp.py:100-102 | every IPv4 header reads back as itself |
| RandomUdp.EncodeDecodeIp | scripts/random_udp.py:100-102 | every 20-byte string is the packing of the header it reads as |
| RandomUdp.BuildIpHeader | scripts/random_udp.py:60-103 | 20 bytes, the first 0x45, reading back as version 4, IHL 5, TOS 0, total length 0, id 0xBEEF, fragment 0, TTL 255, protocol 17, checksum 0 and the two addresses |

## Left out

- Thread interleaving and the memory order of `std::atomic`. A pass is taken atomically at its compare-and-swap or store, so an interleaving between the loads inside one pass is not modelled. Strong and weak compare-and-swap are one operation; a spurious failure is a failed pass.
- Retry loops (`pop`, push's reservation and commit loops) are single passes (`TryPop`, `Reserve`, `Commit`, `CommitPass`) that report why they ended. Liveness and lock-freedom are not modelled.
- MultipleProducers.MultipleProducerQueue.Commit: it is the corrected commit pass of Finding 4, which expects the producer's own cursor on every pass. The pass as written is `CommitPass`; it changes only the commit cursor and keeps no invariant, since it can commit an unwritten reservation.
- MultipleProducers.MultipleProducerQueue.Push and LockFreeQueue.ArrayLockFreeQueue.Push: the whole push is modelled only for a producer no other push overlaps. Overlapping pushes are covered step by step through Reserve, WriteSlot and Commit.
- SingleProducer.SingleProducerQueue.Pop, MultipleProducers.MultipleProducerQueue.Pop and LockFreeQueue.ArrayLockFreeQueue.Pop: the whole pop is modelled only for a consumer that is never overtaken, so `!ok ==> x == data` holds. A consumer that loses a pass has already copied the slot into `a_data`, which is then not restored; that copy is the `read` value of a `Lost` pass, and a whole pop made of several passes is not modelled.
- `size()` and `full()` are stated on the cursors of one snapshot. The source reads the two cursors one after the other, so under concurrency they may return stale values.
- The facade's forwarding bodies are in cpp/lock_free_queue_impl.h, which is not part of this model. The facade follows the declarations in cpp/lock_free_queue.h.
- The root-level copies of the queue headers are not modelled; the cpp/ versions are. The same holds for lock_free_atomic_ops.h, which only wraps compiler builtins.
- The queue classes require Q_SIZE to divide 2^32. The other sizes are covered by the lemmas of Finding 2.
- SafeQueue: the mutex, the condition variable and real time are not modelled. A blocking operation is modelled from the moment its wait ends. `TimedWaitPop`'s timeout is the outcome of the wait, which is whether the queue is non-empty. The pthread versions (safe_queue.h, safe_queue_impl.h) are not modelled.
- SafeQueues.SafeQueue.MoveAssign: the moved-from queue's elements are left unspecified, as after `std::move` of a `std::queue`.
- SafeQueues.SafeQueue.Copy also stands for the move constructor. That one names the source's queue as an lvalue and so copies it.
- The destructors and `SafeQueue::IsEmpty` (the `PopBlocked` predicate) carry no contract of their own.
- VTimer: TIME_TYPE is a natural number, so `uint32_t` wrap-around of `a_currentTime + m_period` is not modelled. The `assert(a_period >= 0)` checks hold by type.
- log_merger.py:
  - Option parsing, the file system, output formatting (`"%s - %s\n"`) and the exception handlers are not modelled.
  - `strptime` is a parameter from the date text to an integer key; its ValueError on a malformed date is not modelled.
  - A custom `--regex` is a matcher parameter. An IndexError for a pattern without the `date` or `msg` group is not modelled.
  - `dates_list` and `msg_list` are kept as one list of entries, which the source always changes together.
- random_udp.py:
  - The send loop, option parsing, random generation, timing and sockets are not modelled.
  - `socket.inet_aton` becomes the 4-byte address it returns.
  - A `struct.pack` out-of-range error becomes `None`.

## Findings

| source | as written | input that shows it | evidently intended | confidence | as-written member | corrected member |
|---|---|---|---|---|---|---|
| cpp/lock_free_queue_impl_single_producer.h:92 (and cpp/lock_free_queue_impl_multiple_producer.h:96) | the else branch of size() returns `Q_SIZE + w - r` on raw cursors, which already counts the wrap | Q_SIZE 16, w 17, r 3: 14 elements, size() 30 | the element count, `Q_SIZE + slot(w) - slot(r)` | high, not executed | RingIndex.SizeAsWrittenOvershoots | RingIndex.SizeCountsElements |
| cpp/lock_free_queue.h:91-96 | the header says a size that is not a power of two only leaves 4 slots unused at the rollover, and the full test is on slot indices | Q_SIZE 100, r = 0xFFFFFF9D: the full test stays false for 195 pushes in a row, and the 100th push writes the slot of the unread 4th element | Q_SIZE must divide 2^32, or the full test must compare cursor distances | high, not executed | RingIndex.RolloverOverwritesUnread | RingIndex.FullIffAtCapacity |
| log_merger.py:150-162, 185-190, 193-209 | `file_list` holds every input, but only inputs with a message get an entry in `dates_list`, so `min_index` addresses the wrong file | inputs `["junk"]` and `["[1] x", "[2] y"]`: x is written, the next read goes to the first file, which is exhausted, and y is never written | `file_list` holds only the inputs with a pending message, aligned with `dates_list` | high, not executed | LogMerger.MergeAsWrittenDropsMessage | LogMerger.Merge |
| cpp/lock_free_queue_impl_multiple_producer.h:162-163 | the commit loop retries `compare_exchange_weak(currentWriteIndex, currentWriteIndex + 1)`, and a failed compare-exchange stores the commit cursor it found into `currentWriteIndex` | Q_SIZE 16, all cursors 0: A reserves 0; B reserves 1 and writes slot 1; B's pass with 1 fails and leaves 0 in its expected value; B's pass with 0 succeeds; a pop then reads slot 0, which A has not written | every pass expects the producer's own reserved cursor (reset the expected value before each retry) | high, not executed | MultipleProducers.CommitWriteBackTrace | MultipleProducers.MultipleProducerQueue.Commit |
