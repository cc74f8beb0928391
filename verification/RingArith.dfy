/** Slots and wrapping indices of a ring whose length divides 2^16. */
module RingArith {
  const U16 := 0x1_0000

  lemma MulGap(n: nat, a: nat, b: nat)
    requires a < b
    ensures n * a + n <= n * b
  {
    assert n * b == n * a + n * (b - a);
    assert n * (b - a) == n + n * (b - a - 1);
  }

  lemma MulLe(n: nat, a: nat, b: nat)
    requires a <= b
    ensures n * a <= n * b
  {
    assert n * b == n * a + n * (b - a);
  }

  lemma ModUnique(x: nat, n: nat, q: nat, r: nat)
    requires x == n * q + r && r < n
    ensures x % n == r && x / n == q
  {
    if x / n > q {
      MulGap(n, q, x / n);
    } else if x / n < q {
      MulGap(n, x / n, q);
    }
  }

  /** The slot computed from a wrapped index is the slot of the unbounded counter. */
  lemma SlotOfCounter(k: nat, size: nat)
    requires 0 < size && U16 % size == 0
    ensures (k % U16) % size == k % size
  {
    var c, h, w := U16 / size, k / U16, k % U16;
    assert U16 == size * c;
    assert k == U16 * h + w && w == size * (w / size) + w % size;
    assert size * c * h == size * (c * h);
    assert k == size * (c * h + w / size) + w % size;
    ModUnique(k, size, c * h + w / size, w % size);
  }

  /** Two counters less than a ring length apart use different slots. */
  lemma SlotsApart(i: nat, j: nat, size: nat)
    requires 0 < size && i < j < i + size
    ensures i % size != j % size
  {
    if i / size < j / size {
      MulGap(size, i / size, j / size);
    } else {
      MulLe(size, j / size, i / size);
    }
  }

  /** Wrapped indices agree exactly when the unbounded counters do, if these are less than 2^16 apart. */
  lemma WrappedAgree(i: nat, j: nat)
    requires i <= j < i + U16
    ensures i % U16 == j % U16 <==> i == j
  {
    if i < j {
      SlotsApart(i, j, U16);
    }
  }

  /** Incrementing a wrapped index wraps the incremented counter. */
  lemma WrappedNext(k: nat)
    ensures (k % U16 + 1) % U16 == (k + 1) % U16
  {}
}
