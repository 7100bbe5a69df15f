/** Unsigned machine arithmetic used by the ring buffer: `size_t` wrap-around,
    bitwise AND, and the power-of-two masks that stand in for `% capacity`. */
module Bits {

  /** 2^64: the modulus of `size_t` and `uint64_t` arithmetic. */
  const TWO64: nat := 0x1_0000_0000_0000_0000

  /** 2^k. */
  function Pow2(k: nat): (r: nat)
    ensures r >= 1
  {
    if k == 0 then 1 else 2 * Pow2(k - 1)
  }

  /** n is 2^k for some k (0 is not a power of two). */
  predicate IsPow2(n: nat)
    decreases n
  {
    if n <= 1 then n == 1 else n % 2 == 0 && IsPow2(n / 2)
  }

  /** Bitwise AND of two naturals, built bit by bit from the least significant one. */
  function BitAnd(a: nat, b: nat): nat
    decreases a
  {
    if a == 0 || b == 0 then 0
    else (if a % 2 == 1 && b % 2 == 1 then 1 else 0) + 2 * BitAnd(a / 2, b / 2)
  }

  /** Unsigned 64-bit subtraction, as `size_t` computes `a - b`. */
  function Sub64(a: nat, b: nat): (r: nat)
    ensures r < TWO64
  {
    (a - b) % TWO64
  }

  /** Unsigned 64-bit addition, as `size_t` or `uint64_t` computes `a + b`. */
  function Add64(a: nat, b: nat): (r: nat)
    ensures r < TWO64
  {
    (a + b) % TWO64
  }

  /** Adding 0 to a value already in range changes nothing. */
  lemma Add64Zero(a: nat)
    requires a < TWO64
    ensures Add64(a, 0) == a
  {
    ModUnique(a, TWO64, 0, a);
  }

  lemma {:induction false} Pow2IsPow2(k: nat)
    ensures IsPow2(Pow2(k))
  {
    if k > 0 {
      Pow2IsPow2(k - 1);
      var m := Pow2(k - 1);
      assert (2 * m) / 2 == m;
    }
  }

  lemma {:induction false} Pow2Add(a: nat, b: nat)
    ensures Pow2(a + b) == Pow2(a) * Pow2(b)
    decreases a
  {
    if a > 0 {
      Pow2Add(a - 1, b);
      assert Pow2(a + b) == 2 * Pow2(a - 1 + b);
    }
  }

  lemma Pow2Of64()
    ensures Pow2(64) == TWO64
  {
    assert Pow2(4) == 16;
    Pow2Add(4, 4);
    Pow2Add(8, 8);
    assert Pow2(16) == 0x1_0000;
    Pow2Add(16, 16);
    assert Pow2(32) == 0x1_0000_0000;
    Pow2Add(32, 32);
  }

  /** 2^64 is a power of two. */
  lemma TWO64IsPow2()
    ensures IsPow2(TWO64)
  {
    Pow2IsPow2(64);
    Pow2Of64();
  }

  /** x == d*q + r with 0 <= r < d pins down x % d. */
  lemma ModUnique(x: int, d: nat, q: int, r: int)
    requires d > 0 && x == d * q + r && 0 <= r < d
    ensures x % d == r && x / d == q
  {
    var q0, r0 := x / d, x % d;
    assert x == d * q0 + r0;
    assert d * (q - q0) == r0 - r;
    if q - q0 >= 1 {
      MulAtLeast(d, q - q0);
      assert false;
    } else if q0 - q >= 1 {
      MulAtLeast(d, q0 - q);
      assert false;
    }
  }

  lemma MulAtLeast(d: nat, k: int)
    requires k >= 1
    ensures d * k >= d
  {
    assert d * k == d * (k - 1) + d;
  }

  /** A power of two divides every larger power of two; k is the quotient. */
  lemma {:induction false} Pow2Divides(c: nat, m: nat) returns (k: nat)
    requires IsPow2(c) && IsPow2(m) && c <= m
    ensures m == c * k && k > 0
    decreases c
  {
    if c == 1 {
      k := m;
    } else {
      assert m > 1;
      k := Pow2Divides(c / 2, m / 2);
      assert m == 2 * (m / 2) && c == 2 * (c / 2);
      assert m == 2 * ((c / 2) * k);
    }
  }

  /** Reducing modulo a multiple of c first does not change a remainder modulo c. */
  lemma ModOfMultiple(x: int, c: nat, k: nat)
    requires c > 0 && k > 0
    ensures (x % (c * k)) % c == x % c
  {
    var m := c * k;
    var y, j := x % m, x / m;
    assert x == m * j + y;
    assert m * j == c * (k * j);
    var z, i := y % c, y / c;
    assert y == c * i + z;
    assert x == c * (k * j + i) + z by {
      assert c * (k * j) + c * i == c * (k * j + i);
    }
    ModUnique(x, c, k * j + i, z);
  }

  /** Reducing modulo 2^64 first does not change a remainder modulo a power of two. */
  lemma ModTWO64ThenPow2(x: int, c: nat)
    requires IsPow2(c) && c <= TWO64
    ensures (x % TWO64) % c == x % c
  {
    TWO64IsPow2();
    var k := Pow2Divides(c, TWO64);
    ModOfMultiple(x, c, k);
  }

  /** The remainder modulo 2m, split into its lowest bit and the rest. */
  lemma ModDouble(x: nat, m: nat)
    requires m > 0
    ensures x % (2 * m) == x % 2 + 2 * ((x / 2) % m)
  {
    var q, r := (x / 2) / m, (x / 2) % m;
    assert x / 2 == m * q + r;
    assert x == 2 * (x / 2) + x % 2;
    assert x == (2 * m) * q + (x % 2 + 2 * r);
    ModUnique(x, 2 * m, q, x % 2 + 2 * r);
  }

  /** AND with an odd mask 2m - 1 keeps the lowest bit and masks the rest with m - 1. */
  lemma AndOddMask(x: nat, m: nat)
    requires x > 0 && m > 0
    ensures BitAnd(x, 2 * m - 1) == x % 2 + 2 * BitAnd(x / 2, m - 1)
  {
    assert (2 * m - 1) % 2 == 1 && (2 * m - 1) / 2 == m - 1;
  }

  /** Masking with c - 1 is reduction modulo c when c is a power of two:
      the identity behind `(i + 1) & (capacity_ - 1)`. */
  lemma {:induction false} MaskIsMod(x: nat, c: nat)
    requires IsPow2(c)
    ensures BitAnd(x, c - 1) == x % c
    decreases c
  {
    if c <= 1 {
      assert c == 1;
      assert BitAnd(x, 0) == 0;
    } else if x == 0 {
    } else {
      var m := c / 2;
      assert c == 2 * m && c - 1 == 2 * m - 1;
      MaskIsMod(x / 2, m);
      AndOddMask(x, m);
      ModDouble(x, m);
      calc {
        BitAnd(x, c - 1);
        x % 2 + 2 * BitAnd(x / 2, m - 1);
        x % 2 + 2 * ((x / 2) % m);
        x % c;
      }
    }
  }

  lemma {:induction false} BitAndSelf(a: nat)
    ensures BitAnd(a, a) == a
    decreases a
  {
    if a != 0 {
      BitAndSelf(a / 2);
    }
  }

  /** For n >= 1, the `(n & (n - 1)) == 0` test accepts exactly the powers of two. */
  lemma {:induction false} PowerOfTwoTest(n: nat)
    requires n >= 1
    ensures BitAnd(n, n - 1) == 0 <==> IsPow2(n)
    decreases n
  {
    if n == 1 {
    } else if n % 2 == 0 {
      var m := n / 2;
      assert n - 1 == 2 * (m - 1) + 1;
      assert (n - 1) % 2 == 1 && (n - 1) / 2 == m - 1;
      assert BitAnd(n, n - 1) == 2 * BitAnd(m, m - 1);
      PowerOfTwoTest(m);
    } else {
      var m := n / 2;
      assert n - 1 == 2 * m && (n - 1) / 2 == m && (n - 1) % 2 == 0;
      BitAndSelf(m);
      assert BitAnd(n, n - 1) == 2 * m;
    }
  }
}
