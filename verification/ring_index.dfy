/**
 * Slot storage index arithmetic shared by both lock-free queue backends:
 * `countToIndex`, the full and empty tests on a snapshot of two cursors, and
 * `size()` computed from such a snapshot.
 *
 * Q_SIZE is a `uint32_t` template parameter. Slot indices stay contiguous
 * when a cursor wraps round only if Q_SIZE divides 2^32 (`StableSize`); the
 * queue classes require it, and the lemmas at the end show what goes wrong
 * without it.
 */
module RingIndex {
  import opened Word32

  /**
   * The end of one pass of pop()'s retry loop: the queue looked empty; another
   * consumer moved the read cursor first, after the slot had already been
   * copied into the caller's variable (`read`); or the element was taken.
   */
  datatype PopOutcome<T> = Empty | Lost(read: T) | Popped(value: T)

  /** The sizes the queue header recommends: divisors of 2^32, that is powers of two. */
  predicate StableSize(q: uint32) {
    q > 0 && Modulus % q == 0
  }

  /** countToIndex: the array slot that holds the element of cursor `c`. */
  function CountToIndex(c: uint32, q: uint32): (i: nat)
    requires q > 0
    ensures i < q
  {
    c % q
  }

  /** The test push() and full() use: the slot after the write cursor is the read cursor's slot. */
  predicate FullTest(q: uint32, w: uint32, r: uint32)
    requires q > 0
  {
    CountToIndex(Add(w, 1), q) == CountToIndex(r, q)
  }

  /** The test pop() uses: the read cursor's slot is the slot of the write (or commit) cursor. */
  predicate EmptyTest(q: uint32, r: uint32, w: uint32)
    requires q > 0
  {
    CountToIndex(r, q) == CountToIndex(w, q)
  }

  /** size() on a cursor snapshot, as the source writes it (`Q_SIZE + w - r` in the else branch). */
  function SizeAsWritten(q: uint32, w: uint32, r: uint32): uint32
    requires q > 0
  {
    if CountToIndex(w, q) >= CountToIndex(r, q) then Sub(w, r)
    else (q + w - r) % Modulus
  }

  /** size() with the else branch computed on slot indices, as its comment intends. */
  function Size(q: uint32, w: uint32, r: uint32): uint32
    requires q > 0
  {
    if CountToIndex(w, q) >= CountToIndex(r, q) then Sub(w, r)
    else q + CountToIndex(w, q) - CountToIndex(r, q)
  }

  // ---------------------------------------------------------------------------
  // Slot arithmetic under StableSize

  /** Reducing a cursor modulo 2^32 does not move it to another slot. */
  lemma SlotOfWrapped(x: int, q: uint32)
    requires StableSize(q)
    ensures (x % Modulus) % q == x % q
  {
    var k := Modulus / q;
    assert Modulus == k * q + Modulus % q;
    assert x % Modulus == x - (x / Modulus) * (k * q);
    assert (x / Modulus) * (k * q) == ((x / Modulus) * k) * q;
    ModSubMultiple(x, (x / Modulus) * k, q);
  }

  /** A size that divides 2^32 and is a uint32 is at most 2^31. */
  lemma StableSizeAtMostHalf(q: uint32)
    requires StableSize(q)
    ensures 2 * q <= Modulus
  {
    var k := Modulus / q;
    assert Modulus == k * q;
    assert (k - 1) * q == Modulus - q;
    MulBounds(k - 1, q);
  }

  /** Where the slot of cursor r + n lies relative to the slot of r, for n < q. */
  lemma SlotAdvance(r: uint32, n: nat, q: uint32)
    requires StableSize(q) && n < q
    ensures CountToIndex(Add(r, n), q) ==
              if r % q + n < q then r % q + n else r % q + n - q
  {
    SlotOfWrapped(r + n, q);
    assert CountToIndex(Add(r, n), q) == (r + n) % q;
    var a, b := r % q, r / q;
    DivMod(r, q);
    if a + n < q {
      ModUnique(r + n, b, a + n, q);
    } else {
      MulSucc(b, q);
      ModUnique(r + n, b + 1, a + n - q, q);
    }
  }

  /** Cursors fewer than q apart occupy different slots. */
  lemma DistinctSlots(q: uint32, r: uint32, i: nat, j: nat)
    requires StableSize(q) && i < j < q
    ensures CountToIndex(Add(r, i), q) != CountToIndex(Add(r, j), q)
  {
    AddAdd(r, i, j - i);
    SlotAdvance(Add(r, i), j - i, q);
  }

  /** Two different cursors that both lie fewer than q steps past `r` (by way of `m`) occupy different slots. */
  lemma DistinctCursorSlots(q: uint32, r: uint32, m: uint32, c: uint32, d: uint32)
    requires StableSize(q) && c != d
    requires Sub(m, r) + Sub(c, m) < q && Sub(m, r) + Sub(d, m) < q
    ensures CountToIndex(c, q) != CountToIndex(d, q)
  {
    var a, j, k := Sub(m, r), Sub(c, m), Sub(d, m);
    AddThrough(r, m, c);
    AddThrough(r, m, d);
    if k < j {
      DistinctSlots(q, r, a + k, a + j);
    } else if j < k {
      DistinctSlots(q, r, a + j, a + k);
    }
  }

  /** Slots stay contiguous across the rollover from 0xFFFFFFFF to 0. */
  lemma RolloverContiguous(q: uint32, c: uint32)
    requires StableSize(q)
    ensures CountToIndex(Add(c, 1), q) == (CountToIndex(c, q) + 1) % q
  {
    if q == 1 {
      ModUnique(Add(c, 1), Add(c, 1), 0, 1);
      ModUnique(CountToIndex(c, q) + 1, CountToIndex(c, q) + 1, 0, 1);
    } else {
      SlotAdvance(c, 1, q);
      if c % q + 1 < q {
        ModUnique(c % q + 1, 0, c % q + 1, q);
      } else {
        ModUnique(c % q + 1, 1, 0, q);
      }
    }
  }

  /** The full test holds exactly when the cursors are q - 1 apart. */
  lemma FullIffAtCapacity(q: uint32, w: uint32, r: uint32)
    requires StableSize(q) && Sub(w, r) < q
    ensures FullTest(q, w, r) <==> Sub(w, r) == q - 1
  {
    var n := Sub(w, r);
    AddOfSub(w, r);
    AddAdd(r, n, 1);
    if n + 1 < q {
      SlotAdvance(r, n + 1, q);
    } else {
      SlotOfWrapped(r + q, q);
      ModSubMultiple(r + q, 1, q);
    }
  }

  /** The empty test holds exactly when the cursors are equal. */
  lemma EmptyIffEqual(q: uint32, r: uint32, w: uint32)
    requires StableSize(q) && Sub(w, r) < q
    ensures EmptyTest(q, r, w) <==> Sub(w, r) == 0
  {
    AddOfSub(w, r);
    SlotAdvance(r, Sub(w, r), q);
  }

  /** size() with the corrected else branch is the number of elements between the cursors. */
  lemma SizeCountsElements(q: uint32, w: uint32, r: uint32)
    requires StableSize(q) && Sub(w, r) < q
    ensures Size(q, w, r) == Sub(w, r)
  {
    AddOfSub(w, r);
    SlotAdvance(r, Sub(w, r), q);
  }

  // ---------------------------------------------------------------------------
  // Elements laid out in the slot array

  /** The elements `contents` lie in the slots of the cursors from `r` on, one per cursor. */
  ghost predicate Laid<T>(s: seq<T>, q: uint32, r: uint32, contents: seq<T>)
    requires q > 0 && |s| == q
  {
    forall i | 0 <= i < |contents| :: s[CountToIndex(Add(r, i), q)] == contents[i]
  }

  /** Taking the oldest element leaves the others laid out from the next cursor. */
  lemma LaidPop<T>(s: seq<T>, q: uint32, r: uint32, contents: seq<T>)
    requires q > 0 && |s| == q && contents != [] && Laid(s, q, r, contents)
    ensures s[CountToIndex(r, q)] == contents[0]
    ensures Laid(s, q, Add(r, 1), contents[1..])
  {
    assert Add(r, 0) == r;
    forall i | 0 <= i < |contents| - 1
      ensures s[CountToIndex(Add(Add(r, 1), i), q)] == contents[1..][i]
    {
      AddAdd(r, 1, i);
    }
  }

  /** An element whose slot is the next cursor's joins the back. */
  lemma LaidAppend<T>(s: seq<T>, q: uint32, r: uint32, contents: seq<T>, x: T)
    requires q > 0 && |s| == q && Laid(s, q, r, contents)
    requires s[CountToIndex(Add(r, |contents|), q)] == x
    ensures Laid(s, q, r, contents + [x])
  {
  }

  /** Writing a slot at most q - 1 cursors beyond the elements' first one keeps every element in place. */
  lemma LaidWrite<T>(s: seq<T>, q: uint32, r: uint32, contents: seq<T>, j: nat, x: T)
    requires StableSize(q) && |s| == q && Laid(s, q, r, contents)
    requires |contents| <= j < q
    ensures Laid(s[CountToIndex(Add(r, j), q) := x], q, r, contents)
  {
    forall i | 0 <= i < |contents|
      ensures CountToIndex(Add(r, i), q) != CountToIndex(Add(r, j), q)
    {
      DistinctSlots(q, r, i, j);
    }
  }

  // ---------------------------------------------------------------------------
  // The source as written

  /** When the occupied slots wrap round the end of the array, size() as written overshoots by Q_SIZE. */
  lemma SizeAsWrittenOvershoots(q: uint32, w: uint32, r: uint32)
    requires StableSize(q) && Sub(w, r) < q
    requires CountToIndex(w, q) < CountToIndex(r, q)
    ensures SizeAsWritten(q, w, r) == Sub(w, r) + q
  {
    StableSizeAtMostHalf(q);
    var t := (w - r) / Modulus;
    assert q + w - r == (q + Sub(w, r)) + t * Modulus;
    ModSubMultiple(q + w - r, t, Modulus);
    ModUnique(q + Sub(w, r), 0, q + Sub(w, r), Modulus);
  }

  /** With Q_SIZE 16, write cursor 17 and read cursor 3 the queue holds 14 elements and size() reports 30. */
  lemma SizeAsWrittenExample()
    ensures Sub(17, 3) == 14 && Size(16, 17, 3) == 14
    ensures SizeAsWritten(16, 17, 3) == 30
  {
  }

  /** With Q_SIZE 100 the last cursor maps to slot 95 and its successor to slot 0: slots 96..99 are skipped. */
  lemma RolloverSkipsSlots()
    ensures CountToIndex(0xFFFF_FFFF, 100) == 95
    ensures Add(0xFFFF_FFFF, 1) == 0 && CountToIndex(Add(0xFFFF_FFFF, 1), 100) == 0
  {
  }

  /**
   * With Q_SIZE 100, a queue drained at cursor 0xFFFFFF9D (slot 97) passes the
   * full test for 195 pushes in a row, and its 100th push goes to slot 0, where
   * the element of cursor 0xFFFFFFA0 (the 4th, still unread) lies.
   */
  lemma RolloverOverwritesUnread()
    ensures forall k | 0 <= k < 195 :: !FullTest(100, Add(0xFFFF_FF9D, k), 0xFFFF_FF9D)
    ensures FullTest(100, Add(0xFFFF_FF9D, 195), 0xFFFF_FF9D)
    ensures Sub(Add(0xFFFF_FF9D, 99), 0xFFFF_FF9D) == 99
    ensures CountToIndex(Add(0xFFFF_FF9D, 99), 100) == CountToIndex(Add(0xFFFF_FF9D, 3), 100)
  {
    forall k | 0 <= k < 195
      ensures !FullTest(100, Add(0xFFFF_FF9D, k), 0xFFFF_FF9D)
    {
      if k <= 98 {
        assert Add(0xFFFF_FF9D, k) == 0xFFFF_FF9D + k;
      } else {
        assert Add(0xFFFF_FF9D, k) == k - 99;
      }
    }
  }
}
