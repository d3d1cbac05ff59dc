/** Machine words: the bitwise masks of the C code and the modular facts every ring index relies on. */
module Words {

  const WORD16: nat := 0x1_0000
  const WORD32: nat := 0x1_0000_0000
  const WORD64: nat := 0x1_0000_0000_0000_0000

  /** Incrementing a uint32_t. */
  function Inc32(x: nat): (r: nat)
    ensures r < WORD32
    ensures x + 1 < WORD32 ==> r == x + 1
  {
    (x + 1) % WORD32
  }

  lemma AddWraps(x: nat, k: nat)
    ensures (x % WORD32 + k) % WORD32 == (x + k) % WORD32
  {
    var q, r := (x % WORD32 + k) / WORD32, (x % WORD32 + k) % WORD32;
    DivModUnique(x + k, WORD32, x / WORD32 + q, r);
  }

  /** Decrementing undoes incrementing across the wrap. */
  lemma WrapsBack(n: nat)
    ensures Inc32(n % WORD32) == (n + 1) % WORD32
    ensures ((n + 1) % WORD32 + (WORD32 - 1)) % WORD32 == n % WORD32
  {
    AddWraps(n, 1);
    AddWraps(n + 1, WORD32 - 1);
    DivModUnique(n + WORD32, WORD32, n / WORD32 + 1, n % WORD32);
  }

  /** L2V of com_dev.h. */
  function Pow2(l: nat): (r: nat)
    ensures r > 0
  {
    if l == 0 then 1 else 2 * Pow2(l - 1)
  }

  /** L2M of com_dev.h. */
  function L2M(l: nat): nat {
    Pow2(l) - 1
  }

  /** Bitwise conjunction, one bit at a time. */
  function And(x: nat, y: nat): nat {
    if x == 0 || y == 0 then 0 else 2 * And(x / 2, y / 2) + (x % 2) * (y % 2)
  }

  /** Masking with L2M(l) is reduction modulo 2^l, for every word and every depth. */
  lemma {:induction false} MaskIsMod(x: nat, l: nat)
    ensures And(x, L2M(l)) == x % Pow2(l)
  {
    if l == 0 {
    } else if x != 0 {
      var m := Pow2(l - 1);
      assert L2M(l) / 2 == m - 1 && L2M(l) % 2 == 1;
      MaskIsMod(x / 2, l - 1);
      ModDouble(x, m);
      if L2M(l) == 0 { assert false; }
    }
  }

  lemma ModDouble(x: nat, m: nat)
    requires m > 0
    ensures x % (2 * m) == 2 * ((x / 2) % m) + x % 2
  {
    var q, r := (x / 2) / m, (x / 2) % m;
    assert x / 2 == q * m + r;
    assert x == (2 * m) * q + (2 * r + x % 2);
    DivModUnique(x, 2 * m, q, 2 * r + x % 2);
  }

  lemma MulAtLeast(d: nat, k: int)
    requires k >= 1
    ensures d * k >= d
  {
  }

  lemma MulMonotone(a: nat, b: nat, n: nat)
    requires a <= b
    ensures a * n <= b * n
  {
  }

  lemma CancelMul(x: nat, b: nat, n: nat)
    requires n > 0 && x * n <= b * n
    ensures x <= b
  {
    assert (b + 1) * n == b * n + n;
    if b + 1 <= x {
      MulMonotone(b + 1, x, n);
    }
  }

  lemma DivModUnique(x: int, d: nat, q: int, r: nat)
    requires d > 0 && r < d && x == d * q + r
    ensures x / d == q && x % d == r
  {
    var q', r' := x / d, x % d;
    assert x == d * q' + r' && r' < d;
    assert d * (q - q') == d * q - d * q';
    assert d * (q' - q) == d * q' - d * q;
    if q > q' {
      MulAtLeast(d, q - q');
    } else if q < q' {
      MulAtLeast(d, q' - q);
    }
  }

  /** A modulus that divides another may be taken first or last. */
  lemma ModMod(x: nat, a: nat, b: nat)
    requires a > 0 && b > 0 && a * b > 0
    ensures (x % (a * b)) % a == x % a
  {
    var q, r := x / (a * b), x % (a * b);
    assert x == (a * b) * q + r;
    var q', r' := r / a, r % a;
    assert x == a * (b * q + q') + r' by {
      assert (a * b) * q == a * (b * q);
      assert a * (b * q) + a * q' == a * (b * q + q');
    }
    DivModUnique(x, a, b * q + q', r');
  }

  lemma {:induction false} PowAdd(k: nat, l: nat)
    ensures Pow2(k + l) == Pow2(k) * Pow2(l)
  {
    if k != 0 {
      PowAdd(k - 1, l);
    }
  }

  lemma Pow2Values()
    ensures Pow2(7) == 128 && Pow2(9) == 512 && Pow2(11) == 2048
    ensures Pow2(16) == WORD16 && Pow2(32) == WORD32
  {
    PowAdd(7, 2);
    PowAdd(9, 2);
    PowAdd(9, 7);
    PowAdd(16, 16);
  }

  /** A 32-bit index and its unbounded count select the same slot of a ring of depth 2^l. */
  lemma WrapSlot(n: nat, l: nat)
    requires l <= 32
    ensures (n % WORD32) % Pow2(l) == n % Pow2(l)
  {
    PowAdd(l, 32 - l);
    Pow2Values();
    ModMod(n, Pow2(l), Pow2(32 - l));
  }

  /** Advancing a count moves its slot by one, and its lap exactly when the slot returns to zero. */
  lemma SlotStep(n: int, d: nat)
    requires d > 0
    ensures (n + 1) % d == (if n % d + 1 == d then 0 else n % d + 1)
    ensures (n + 1) / d == (if (n + 1) % d == 0 then n / d + 1 else n / d)
  {
    var q, r := n / d, n % d;
    assert n == d * q + r;
    if r + 1 == d {
      assert d * (q + 1) == d * q + d;
      DivModUnique(n + 1, d, q + 1, 0);
    } else {
      DivModUnique(n + 1, d, q, r + 1);
    }
  }

  /** One whole lap earlier is the same slot. */
  lemma LapBack(n: int, d: nat)
    requires d > 0
    ensures (n - d) % d == n % d && (n - d) / d == n / d - 1
  {
    var q, r := n / d, n % d;
    assert n == d * q + r;
    assert d * (q - 1) == d * q - d;
    DivModUnique(n - d, d, q - 1, r);
  }

  /** Two counts less than a lap apart never share a slot. */
  lemma SlotsApart(m: int, n: int, d: nat)
    requires d > 0 && m < n < m + d
    ensures m % d != n % d
  {
    var q, r, k := m / d, m % d, n - m;
    assert m == d * q + r;
    if r + k < d {
      DivModUnique(n, d, q, r + k);
    } else {
      assert d * (q + 1) == d * q + d;
      DivModUnique(n, d, q + 1, r + k - d);
    }
  }
}
