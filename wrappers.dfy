/** Option and Result values shared by every module of the model. */
module Wrappers {
  datatype Option<T> = None | Some(value: T)

  /** The outcome of an operation that can fail with an error of type E. */
  datatype Result<T, E> = Ok(value: T) | Err(error: E)
  {
    predicate IsOk() { this.Ok? }
  }
}

/** Fixed-width machine integers as the firmware uses them. */
module Ints {
  type u8 = x: int | 0 <= x < 0x100
  type u16 = x: int | 0 <= x < 0x1_0000
  type u32 = x: int | 0 <= x < 0x1_0000_0000
  type u64 = x: int | 0 <= x < 0x1_0000_0000_0000_0000

  const U8_MAX: int := 0xFF
  const U16_MAX: int := 0xFFFF
  const U32_MAX: int := 0xFFFF_FFFF
  const U64_MAX: int := 0xFFFF_FFFF_FFFF_FFFF

  /** Release-mode (wrapping) reduction of an integer to 8, 16, 32 or 64 bits. */
  function Wrap8(x: int): (r: u8)
    ensures 0 <= x < 0x100 ==> r == x
  {
    if 0 <= x < 0x100 then x else x % 0x100
  }

  function Wrap16(x: int): (r: u16)
    ensures 0 <= x < 0x1_0000 ==> r == x
  {
    if 0 <= x < 0x1_0000 then x else x % 0x1_0000
  }

  function Wrap32(x: int): (r: u32)
    ensures 0 <= x < 0x1_0000_0000 ==> r == x
  {
    if 0 <= x < 0x1_0000_0000 then x else x % 0x1_0000_0000
  }

  function Wrap64(x: int): (r: u64)
    ensures 0 <= x < 0x1_0000_0000_0000_0000 ==> r == x
  {
    if 0 <= x < 0x1_0000_0000_0000_0000 then x else x % 0x1_0000_0000_0000_0000
  }

  /** `a.saturating_sub(b)` on unsigned integers. */
  function SatSub(a: nat, b: nat): (r: nat)
    ensures r <= a
    ensures b <= a ==> r + b == a
    ensures a <= b ==> r == 0
  {
    if a >= b then a - b else 0
  }

  /** `a.saturating_add(b)` on a type whose largest value is `max`. */
  function SatAdd(a: nat, b: nat, max: nat): (r: nat)
    requires a <= max && b <= max
    ensures r <= max
    ensures a + b <= max ==> r == a + b
    ensures a + b > max ==> r == max
  {
    if a + b > max then max else a + b
  }

  /** The quotient of a division rounded down, bracketed by multiples of the divisor. */
  lemma DivBounds(x: nat, t: nat)
    requires t > 0
    ensures (x / t) * t <= x < (x / t) * t + t
  {
  }

  /** A dividend of at most k times the divisor has a quotient of at most k. */
  lemma QuotientAtMost(x: nat, t: nat, k: nat)
    requires t > 0
    ensures x <= k * t ==> x / t <= k
  {
    DivBounds(x, t);
  }

  /** Adding to a wrapped value wraps like adding to the value itself. */
  lemma WrapAdd32(x: nat, y: nat)
    ensures Wrap32(Wrap32(x) + y) == Wrap32(x + y)
  {
    var m := 0x1_0000_0000;
    var q := x / m;
    assert x == q * m + x % m;
    ModAddMultiple(x % m + y, q, m);
    assert x + y == q * m + (x % m + y);
  }

  /** Adding a multiple of the modulus does not change the remainder. */
  lemma ModAddMultiple(a: nat, k: nat, m: nat)
    requires m > 0
    ensures (k * m + a) % m == a % m
  {
    var b := k * m + a;
    DivBounds(a, m);
    var q := a / m;
    assert b == (k + q) * m + a % m;
    ModUnique(b, m, k + q, a % m);
  }

  /** A decomposition b = q * m + r with 0 <= r < m determines the remainder. */
  lemma ModUnique(b: nat, m: nat, q: nat, r: nat)
    requires m > 0 && r < m && b == q * m + r
    ensures b % m == r
  {
    DivBounds(b, m);
    var q2 := b / m;
    if q2 < q {
      MulLe(q2 + 1, q, m);
    } else if q2 > q {
      MulLe(q + 1, q2, m);
    }
  }

  /** Multiplying by the same factor keeps the order. */
  lemma MulLe(a: nat, b: nat, t: nat)
    requires a <= b
    ensures a * t <= b * t
  {
    assert b * t == a * t + (b - a) * t;
  }

  /** Division by the same divisor keeps the order. */
  lemma DivMonotone(a: nat, b: nat, t: nat)
    requires a <= b && t > 0
    ensures a / t <= b / t
  {
    DivBounds(a, t);
    DivAtLeast(b, t, a / t);
  }

  /** The quotient reaches k exactly when the dividend reaches k times the divisor. */
  lemma DivAtLeast(x: nat, t: nat, k: nat)
    requires t > 0
    ensures x / t >= k <==> x >= k * t
  {
    DivBounds(x, t);
    var q := x / t;
    if q >= k {
      MulLe(k, q, t);
    } else {
      MulLe(q + 1, k, t);
      assert (q + 1) * t == q * t + t;
    }
  }

  /** `min(x / t, 100)` is 100 exactly when `x` reaches `100 * t`, and never exceeds `x / t`. */
  lemma CappedPercentFacts(x: nat, t: nat)
    requires t > 0
    ensures Min(x / t, 100) == 100 <==> x >= 100 * t
    ensures Min(x / t, 100) * t <= x
  {
    DivAtLeast(x, t, 100);
    DivBounds(x, t);
    MulLe(Min(x / t, 100), x / t, t);
  }

  /** `min(x / t, 100)`: a ratio in percent, capped at 100. */
  function CappedPercent(x: nat, t: nat): (r: u8)
    requires t > 0
    ensures r <= 100
    ensures r == 100 <==> x >= 100 * t
    ensures r * t <= x
    ensures x < t ==> r == 0
  {
    CappedPercentFacts(x, t);
    var q: nat := x / t;
    Min(q, 100)
  }

  function Min(a: int, b: int): (r: int)
    ensures r <= a && r <= b && (r == a || r == b)
  {
    if a <= b then a else b
  }

  function Max(a: int, b: int): (r: int)
    ensures r >= a && r >= b && (r == a || r == b)
  {
    if a >= b then a else b
  }

  /** Bitwise exclusive or of two naturals, built one bit at a time from the least significant. */
  function Xor(a: nat, b: nat): nat
    decreases a + b
  {
    if a == 0 && b == 0 then 0
    else (if a % 2 == b % 2 then 0 else 1) + 2 * Xor(a / 2, b / 2)
  }

  /** `2^k` */
  function Bit(k: nat): (r: nat)
    ensures r >= 1
  {
    if k == 0 then 1 else 2 * Bit(k - 1)
  }

  /** The exclusive or of two `k`-bit values is a `k`-bit value. */
  lemma {:induction false} XorBelow(a: nat, b: nat, k: nat)
    requires a < Bit(k) && b < Bit(k)
    ensures Xor(a, b) < Bit(k)
  {
    if k > 0 && (a != 0 || b != 0) {
      XorBelow(a / 2, b / 2, k - 1);
    }
  }

  /** `^` on bytes. */
  function Xor8(a: u8, b: u8): u8 {
    assert Bit(8) == 0x100;
    XorBelow(a, b, 8);
    Xor(a, b)
  }

  /** The low bit of `a ^ b` is the exclusive or of the low bits, the other bits are `(a / 2) ^ (b / 2)`. */
  lemma XorParts(a: nat, b: nat)
    ensures Xor(a, b) % 2 == (if a % 2 == b % 2 then 0 else 1)
    ensures Xor(a, b) / 2 == Xor(a / 2, b / 2)
  {
  }

  lemma {:induction false} XorZero(a: nat)
    ensures Xor(a, 0) == a && Xor(0, a) == a
  {
    if a != 0 {
      XorZero(a / 2);
    }
  }

  lemma {:induction false} XorSelf(a: nat)
    ensures Xor(a, a) == 0
  {
    if a != 0 {
      XorSelf(a / 2);
    }
  }

  lemma {:induction false} XorComm(a: nat, b: nat)
    ensures Xor(a, b) == Xor(b, a)
  {
    if a != 0 || b != 0 {
      XorComm(a / 2, b / 2);
    }
  }

  lemma {:induction false} XorAssoc(a: nat, b: nat, c: nat)
    ensures Xor(Xor(a, b), c) == Xor(a, Xor(b, c))
    decreases a + b + c
  {
    var l, r := Xor(Xor(a, b), c), Xor(a, Xor(b, c));
    if a != 0 || b != 0 || c != 0 {
      XorAssoc(a / 2, b / 2, c / 2);
      XorParts(a, b);
      XorParts(b, c);
      XorParts(Xor(a, b), c);
      XorParts(a, Xor(b, c));
      assert l % 2 == r % 2 && l / 2 == r / 2;
    }
  }

  /** A common right operand cancels: `(a ^ s) ^ (b ^ s) == a ^ b`. */
  lemma XorCancel(a: nat, b: nat, s: nat)
    ensures Xor(Xor(a, s), Xor(b, s)) == Xor(a, b)
  {
    XorAssoc(a, s, Xor(b, s));
    XorComm(b, s);
    XorAssoc(s, s, b);
    XorSelf(s);
    XorZero(b);
  }

  lemma Xor8Assoc(a: u8, b: u8, c: u8)
    ensures Xor8(Xor8(a, b), c) == Xor8(a, Xor8(b, c))
  {
    XorAssoc(a, b, c);
  }

  lemma Xor8Comm(a: u8, b: u8)
    ensures Xor8(a, b) == Xor8(b, a)
  {
    XorComm(a, b);
  }

  lemma Xor8Identity(a: u8)
    ensures Xor8(a, 0) == a && Xor8(0, a) == a && Xor8(a, a) == 0
  {
    XorZero(a);
    XorSelf(a);
  }

  /** `^` of two 7-bit values is a 7-bit value. */
  lemma Xor8Below80(a: u8, b: u8)
    requires a < 0x80 && b < 0x80
    ensures Xor8(a, b) < 0x80
  {
    assert Bit(7) == 0x80;
    XorBelow(a, b, 7);
  }

  function And32(a: u32, b: u32): u32 {
    ((a as bv32) & (b as bv32)) as int
  }

  function Not32(a: u32): u32 {
    (!(a as bv32)) as int
  }

  /** Little-endian and big-endian halves of a 16-bit value. */
  function Lo(x: u16): u8 { x % 0x100 }
  function Hi(x: u16): u8 { x / 0x100 }

  lemma HiLo(x: u16)
    ensures Hi(x) * 0x100 + Lo(x) == x
  {
  }

  /** `u16::from_le_bytes([lo, hi])`. */
  function FromLe16(lo: u8, hi: u8): (r: u16)
    ensures Lo(r) == lo && Hi(r) == hi
  {
    lo as int + 0x100 * (hi as int)
  }

  /** Splitting a `u16` into its little-endian bytes and joining them again gives it back. */
  lemma FromLe16OfBytes(x: u16)
    ensures FromLe16(Lo(x), Hi(x)) == x
  {
    HiLo(x);
  }

  /** `(p ^ x ^ s) ^ (p ^ d ^ s)` is `x ^ d`. */
  lemma Xor8Difference(p: u8, x: u8, d: u8, s: u8)
    ensures Xor8(Xor8(Xor8(p, x), s), Xor8(Xor8(p, d), s)) == Xor8(x, d)
  {
    XorCancel(Xor(p, x), Xor(p, d), s);
    XorComm(p, x);
    XorComm(p, d);
    XorCancel(x, d, p);
  }

  /** Bytes whose `^` is zero are equal. */
  lemma Xor8ZeroIsEqual(a: u8, b: u8)
    ensures Xor8(a, b) == 0 <==> a == b
  {
    XorSelf(a);
    XorAssoc(a, b, b);
    XorSelf(b);
    XorZero(a);
    XorZero(b);
  }
}
