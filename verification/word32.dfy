/**
 * Unsigned 32-bit cursor arithmetic.
 *
 * The queue cursors are `uint32_t` counters that grow monotonically and wrap
 * round from 0xFFFFFFFF to 0. `Add` and `Sub` are the C++ unsigned `+` and
 * `-` on such counters; `Sub(a, b)` is the cursor distance from `b` up to `a`.
 * The lemmas at the end are the facts about `%` that the queue proofs need.
 */
module Word32 {

  const Modulus: int := 0x1_0000_0000

  type uint32 = x: int | 0 <= x < 0x1_0000_0000

  /** `a + b` on `uint32_t`: wraps round past 0xFFFFFFFF. */
  function Add(a: uint32, b: nat): uint32 {
    (a + b) % Modulus
  }

  /** `a - b` on `uint32_t`: how far cursor `a` is ahead of cursor `b`. */
  function Sub(a: uint32, b: uint32): uint32 {
    (a - b) % Modulus
  }

  /** An integer reduced to `uint32_t`, as a counter that wraps round in both directions holds it. */
  function Wrap(x: int): uint32 {
    x % Modulus
  }

  /** `fetch_add(1)` and `fetch_sub(1)` on a wrapped counter wrap the next and the previous integer. */
  lemma WrapStep(x: int)
    ensures Add(Wrap(x), 1) == Wrap(x + 1)
    ensures Sub(Wrap(x), 1) == Wrap(x - 1)
  {
    DivMod(x, Modulus);
    ModSubMultiple(x + 1, x / Modulus, Modulus);
    ModSubMultiple(x - 1, x / Modulus, Modulus);
  }

  lemma MulBounds(k: int, q: int)
    requires q > 0
    ensures k >= 1 ==> k * q >= q
    ensures k <= -1 ==> k * q <= -q
  {
    if k >= 1 {
      assert k * q == (k - 1) * q + q;
      assert (k - 1) * q >= 0;
    } else if k <= -1 {
      assert k * q == (k + 1) * q - q;
      assert (k + 1) * q <= 0;
    }
  }

  /** Euclidean division: `x` is its quotient times `q` plus its remainder. */
  lemma DivMod(x: int, q: int)
    requires q > 0
    ensures x == (x / q) * q + x % q
  {
  }

  lemma MulSucc(b: int, q: int)
    ensures (b + 1) * q == b * q + q
  {
  }

  /** Euclidean remainders are unique. */
  lemma ModUnique(y: int, m: int, a: int, q: int)
    requires q > 0 && 0 <= a < q && y == m * q + a
    ensures y % q == a
  {
    var d, r := y / q, y % q;
    assert y == d * q + r && 0 <= r < q;
    assert (m - d) * q == r - a;
    MulBounds(m - d, q);
  }

  /** Taking away a multiple of `q` does not change the remainder modulo `q`. */
  lemma ModSubMultiple(x: int, t: int, q: int)
    requires q > 0
    ensures (x - t * q) % q == x % q
  {
    var a, b := x % q, x / q;
    assert x == b * q + a;
    assert x - t * q == (b - t) * q + a;
    ModUnique(x - t * q, b - t, a, q);
  }

  lemma AddAdd(a: uint32, i: nat, j: nat)
    ensures Add(Add(a, i), j) == Add(a, i + j)
  {
    ModSubMultiple(a + i + j, (a + i) / Modulus, Modulus);
  }

  lemma SubOfAdd(a: uint32, i: nat)
    requires i < Modulus
    ensures Sub(Add(a, i), a) == i
  {
    ModSubMultiple(a + i - a, (a + i) / Modulus, Modulus);
    ModUnique(i, 0, i, Modulus);
  }

  lemma AddOfSub(a: uint32, b: uint32)
    ensures Add(b, Sub(a, b)) == a
  {
    ModSubMultiple(a, (a - b) / Modulus, Modulus);
    ModUnique(a, 0, a, Modulus);
  }

  /** Moving the base one step forward shortens the distance to a cursor ahead of it by one. */
  lemma SubStepBase(b: uint32, c: uint32)
    requires Sub(c, b) >= 1
    ensures Sub(c, Add(b, 1)) == Sub(c, b) - 1
  {
    AddOfSub(c, b);
    AddAdd(b, 1, Sub(c, b) - 1);
    SubOfAdd(Add(b, 1), Sub(c, b) - 1);
  }

  /** Moving a cursor one step forward lengthens its distance from the base by one. */
  lemma SubStepCursor(b: uint32, c: uint32)
    requires Sub(c, b) + 1 < Modulus
    ensures Sub(Add(c, 1), b) == Sub(c, b) + 1
  {
    AddOfSub(c, b);
    AddAdd(b, Sub(c, b), 1);
    SubOfAdd(b, Sub(c, b) + 1);
  }

  /** A cursor is reached from `r` by going to `m` first and on from there. */
  lemma AddThrough(r: uint32, m: uint32, c: uint32)
    ensures c == Add(r, Sub(m, r) + Sub(c, m))
  {
    AddOfSub(m, r);
    AddOfSub(c, m);
    AddAdd(r, Sub(m, r), Sub(c, m));
  }

  /** Cursor distances add up along r <= m <= w. */
  lemma SubSplit(w: uint32, m: uint32, r: uint32)
    requires Sub(m, r) + Sub(w, m) < Modulus
    ensures Sub(w, r) == Sub(m, r) + Sub(w, m)
  {
    var t := (m - r) / Modulus + (w - m) / Modulus;
    assert Sub(m, r) + Sub(w, m) == (w - r) - t * Modulus;
    ModSubMultiple(w - r, t, Modulus);
    ModUnique(Sub(m, r) + Sub(w, m), 0, Sub(m, r) + Sub(w, m), Modulus);
  }

  /** The commit cursor `m` moves one step towards the write cursor `w`, away from the read cursor `r`. */
  lemma CommitCursors(r: uint32, m: uint32, w: uint32)
    requires Sub(m, r) + Sub(w, m) < Modulus && Sub(w, m) >= 1
    ensures Sub(Add(m, 1), r) == Sub(m, r) + 1
    ensures Sub(w, Add(m, 1)) == Sub(w, m) - 1
  {
    SubStepBase(m, w);
    SubStepCursor(r, m);
  }

  /** A cursor strictly between `m` and `w` stays before `w` when `m` moves one step. */
  lemma OutstandingStep(m: uint32, w: uint32, d: uint32)
    requires Sub(d, m) < Sub(w, m) && d != m
    ensures Sub(d, Add(m, 1)) < Sub(w, Add(m, 1))
  {
    assert Sub(d, m) != 0 by {
      AddOfSub(d, m);
    }
    SubStepBase(m, d);
    SubStepBase(m, w);
  }
}
