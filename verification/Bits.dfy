/** Payloads and the machine arithmetic of the rings: slots of tickets, bit masks, the power-of-two
    test and wrap-around. */
module Bits {

  type Word = int

  /** A value is stored and copied one word at a time. */
  type Payload = seq<Word>

  /** The slot of a ticket, as repeated subtraction; `MaskIsSlot` shows that it is the bit mask
      that the program computes and `SlotIsModulo` that it is the remainder. */
  function SlotOf(t: nat, n: nat): (i: nat)
    requires n > 0
    ensures i < n
  {
    if t < n then t else SlotOf(t - n, n)
  }

  lemma {:induction false} SlotNext(t: nat, n: nat)
    requires n >= 2
    ensures SlotOf(t + 1, n) != SlotOf(t, n)
    decreases t
  {
    if t < n {
    } else {
      SlotNext(t - n, n);
    }
  }

  function Pow2(k: nat): (p: nat)
    ensures p >= 1
  {
    if k == 0 then 1 else 2 * Pow2(k - 1)
  }

  /** Bitwise conjunction of two non-negative numbers. */
  function BitAnd(a: nat, b: nat): (r: nat)
    ensures r <= a && r <= b
  {
    if a == 0 || b == 0 then 0
    else 2 * BitAnd(a / 2, b / 2) + if a % 2 == 1 && b % 2 == 1 then 1 else 0
  }

  lemma {:induction false} AndSelf(a: nat)
    ensures BitAnd(a, a) == a
  {
    if a == 0 {
    } else {
      AndSelf(a / 2);
    }
  }

  ghost predicate IsPow2(n: nat) {
    exists k: nat :: n == Pow2(k)
  }

  /** The compile-time test of the ring size. */
  predicate SizeTest(n: nat) {
    n != 0 && BitAnd(n, n - 1) == 0
  }

  lemma SizeTestOdd(n: nat)
    requires n % 2 == 1
    ensures SizeTest(n) <==> n == 1
  {
    if n > 1 {
      assert (n - 1) / 2 == n / 2 && (n - 1) % 2 == 0;
      AndSelf(n / 2);
      assert BitAnd(n, n - 1) == 2 * BitAnd(n / 2, (n - 1) / 2);
    }
  }

  lemma SizeTestEven(n: nat)
    requires n > 0 && n % 2 == 0
    ensures SizeTest(n) <==> SizeTest(n / 2)
  {
    assert (n - 1) / 2 == n / 2 - 1 && (n - 1) % 2 == 1;
    assert BitAnd(n, n - 1) == 2 * BitAnd(n / 2, (n - 1) / 2);
  }

  /** The test of the ring size accepts exactly the powers of two. */
  lemma {:induction false} SizeTestIsPowerOfTwo(n: nat)
    ensures SizeTest(n) <==> IsPow2(n)
  {
    if n == 0 {
    } else if n % 2 == 1 {
      SizeTestOdd(n);
      assert Pow2(0) == 1;
      forall k: nat ensures n == Pow2(k) ==> n == 1 { }
    } else {
      SizeTestEven(n);
      SizeTestIsPowerOfTwo(n / 2);
      if IsPow2(n / 2) {
        var k: nat :| n / 2 == Pow2(k);
        assert n == Pow2(k + 1);
      }
      if IsPow2(n) {
        var k: nat :| n == Pow2(k);
        assert n / 2 == Pow2(k - 1);
      }
    }
  }

  lemma {:induction false} SlotHalves(t: nat, n: nat)
    requires n > 0
    ensures SlotOf(t, 2 * n) == 2 * SlotOf(t / 2, n) + t % 2
    decreases t
  {
    if t < 2 * n {
    } else {
      SlotHalves(t - 2 * n, n);
      assert (t - 2 * n) / 2 == t / 2 - n;
    }
  }

  /** Masking a ticket with size - 1 yields its slot, for every power-of-two size. */
  lemma {:induction false} MaskIsSlot(t: nat, k: nat)
    ensures BitAnd(t, Pow2(k) - 1) == SlotOf(t, Pow2(k))
    decreases k
  {
    if k == 0 {
      SlotOfOne(t);
    } else {
      MaskIsSlot(t / 2, k - 1);
      SlotHalves(t, Pow2(k - 1));
      assert (Pow2(k) - 1) / 2 == Pow2(k - 1) - 1 && (Pow2(k) - 1) % 2 == 1;
      if t == 0 { assert SlotOf(0, Pow2(k)) == 0; }
    }
  }

  lemma {:induction false} SlotOfOne(t: nat)
    ensures SlotOf(t, 1) == 0
  {
    if t == 0 {
    } else {
      SlotOfOne(t - 1);
    }
  }

  lemma ModuloShift(t: nat, n: nat)
    requires 0 < n <= t
    ensures (t - n) % n == t % n
  {
    var a, b := t / n, (t - n) / n;
    assert t == a * n + t % n && t - n == b * n + (t - n) % n;
    var d := a - b - 1;
    assert d * n == (t - n) % n - t % n;
  }

  /** Repeated subtraction is the remainder. */
  lemma {:induction false} SlotIsModulo(t: nat, n: nat)
    requires n > 0
    ensures SlotOf(t, n) == t % n
    decreases t
  {
    if t < n {
    } else {
      SlotIsModulo(t - n, n);
      ModuloShift(t, n);
    }
  }

  lemma {:induction false} SlotAddMultiple(t: nat, q: nat, n: nat)
    requires n > 0
    ensures SlotOf(t + q * n, n) == SlotOf(t, n)
    decreases q
  {
    if q == 0 {
    } else {
      SlotAddMultiple(t, q - 1, n);
      assert t + q * n == (t + (q - 1) * n) + n;
    }
  }

  /** The value kept in a counter of the given modulus. */
  function Wrap(t: nat, modulus: nat): (r: nat)
    requires modulus > 0
    ensures r < modulus
  {
    t % modulus
  }

  lemma {:induction false} SlotOfSlot(t: nat, m: nat, q: nat, n: nat)
    requires n > 0 && m > 0 && m == q * n
    ensures SlotOf(SlotOf(t, m), n) == SlotOf(t, n)
    decreases t
  {
    if t < m {
    } else {
      SlotOfSlot(t - m, m, q, n);
      SlotAddMultiple(t - m, q, n);
    }
  }

  /** Wrapping does not change the slot when the size divides the modulus. */
  lemma WrapKeepsSlot(t: nat, m: nat, q: nat, n: nat)
    requires n > 0 && m > 0 && m == q * n
    ensures SlotOf(Wrap(t, m), n) == SlotOf(t, n)
  {
    SlotIsModulo(t, m);
    SlotOfSlot(t, m, q, n);
  }

  lemma {:induction false} SlotAdd(t: nat, c: nat, m: nat)
    requires m > 0
    ensures SlotOf(SlotOf(t, m) + c, m) == SlotOf(t + c, m)
    decreases t
  {
    if t < m {
    } else {
      SlotAdd(t - m, c, m);
    }
  }

  lemma WrapAdd(t: nat, c: nat, m: nat)
    requires m > 0
    ensures Wrap(Wrap(t, m) + c, m) == Wrap(t + c, m)
  {
    SlotAdd(t, c, m);
    SlotIsModulo(t, m);
    SlotIsModulo(SlotOf(t, m) + c, m);
    SlotIsModulo(t + c, m);
  }

  lemma {:induction false} SlotClose(x: nat, y: nat, m: nat)
    requires m > 0 && x <= y < x + m
    ensures SlotOf(x, m) == SlotOf(y, m) <==> x == y
    decreases x
  {
    if x >= m {
      SlotClose(x - m, y - m, m);
    } else if y >= m {
      assert SlotOf(y - m, m) == y - m;
    }
  }

  /** Two counters less than one modulus apart are equal exactly when their wrapped values are. */
  lemma WrapClose(x: nat, y: nat, m: nat)
    requires m > 0 && x <= y < x + m
    ensures Wrap(x, m) == Wrap(y, m) <==> x == y
  {
    SlotClose(x, y, m);
    SlotIsModulo(x, m);
    SlotIsModulo(y, m);
  }

  lemma {:induction false} Pow2Divides(k: nat, j: nat)
    requires k <= j
    ensures Pow2(j) == Pow2(j - k) * Pow2(k)
    decreases j
  {
    if k == j {
    } else {
      Pow2Divides(k, j - 1);
    }
  }

  lemma {:induction false} SubsetSize(a: set<nat>, b: set<nat>)
    requires a <= b
    ensures |a| <= |b|
    decreases a
  {
    if a == {} {
    } else {
      var x :| x in a;
      SubsetSize(a - {x}, b - {x});
    }
  }
}
