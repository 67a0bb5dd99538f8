/** Modular (serial) sequence arithmetic in the style of section 3.2 of RFC 1982.
    The exact half-way distance reads as "behind" in both directions. */
module Serial {
  const MOD: int := 0x1_0000_0000
  const HALF: int := 0x8000_0000

  type u8 = n: int | 0 <= n < 0x100
  type u16 = n: int | 0 <= n < 0x1_0000
  type u32 = n: int | 0 <= n < 0x1_0000_0000
  type u64 = n: int | 0 <= n < 0x1_0000_0000_0000_0000

  function Bit(b: bool): nat { if b then 1 else 0 }

  /** The 32-bit difference a - b read as a signed 32-bit number. */
  function Cmp(a: u32, b: u32): (r: int)
    ensures -HALF <= r < HALF
    ensures r == 0 <==> a == b
  {
    var d := if a >= b then a - b else a - b + MOD;
    if d < HALF then d else d - MOD
  }

  function Next(s: u32): (r: u32)
    ensures Cmp(r, s) == 1
  {
    if s == MOD - 1 then 0 else s + 1
  }

  /** On naturals less than half the circle apart, Cmp of the images is the true difference. */
  lemma CmpExact(x: nat, y: nat)
    requires -HALF <= x - y < HALF
    ensures Cmp(x % MOD, y % MOD) == x - y
  {
    var qx, qy := x / MOD, y / MOD;
    assert x == qx * MOD + x % MOD && y == qy * MOD + y % MOD;
    assert x - y == (qx - qy) * MOD + (x % MOD - y % MOD);
    assert -1 <= qx - qy <= 1;
  }

  /** Two numbers at or ahead of a common origin are ordered by their distances from it. */
  lemma CmpFromOrigin(a: u32, b: u32, origin: u32)
    requires Cmp(a, origin) >= 0 && Cmp(b, origin) >= 0
    ensures Cmp(a, b) == Cmp(a, origin) - Cmp(b, origin)
  {
  }

  /** The order is antisymmetric except at the half-way distance, where both sides read "behind". */
  lemma CmpFlip(a: u32, b: u32)
    ensures Cmp(a, b) != -HALF ==> Cmp(b, a) == -Cmp(a, b)
    ensures Cmp(a, b) == -HALF <==> Cmp(b, a) == -HALF
  {
  }

  /** Reduction of an index below twice the ring size; the code writes it with the % operator. */
  function Wrap(x: nat, n: nat): int {
    if x < n then x else x - n
  }

  lemma WrapIsMod(x: nat, n: nat)
    requires x < 2 * n
    ensures x % n == Wrap(x, n)
  {
    if x >= n {
      assert x / n == 1;
    }
  }

  /** An index reduced into the ring. */
  method RingIndex(x: nat, n: nat) returns (r: nat)
    requires x < 2 * n
    ensures r == Wrap(x, n)
  {
    WrapIsMod(x, n);
    r := x % n;
  }
}
