/** Java `int` arithmetic: 32-bit wrap-around and the bitwise AND of two's-complement values. */
module JavaInts {
  import opened JavaStrings

  const TWO_32: int := 0x1_0000_0000
  const TWO_31: int := 0x8000_0000

  /** The int a Java `int` expression yields for the mathematical value `n`. */
  function Wrap32(n: int): (r: int)
    ensures IsInt32(r)
    ensures (r - n) % TWO_32 == 0
    ensures IsInt32(n) ==> r == n
  {
    (n + TWO_31) % TWO_32 - TWO_31
  }

  /** The two's-complement bit pattern of an int, read as an unsigned number. */
  function Unsigned(n: int): (u: nat)
    requires IsInt32(n)
    ensures u < TWO_32
  {
    if n < 0 then n + TWO_32 else n
  }

  /** The int whose two's-complement bit pattern is `u`. */
  function Signed(u: nat): (n: int)
    requires u < TWO_32
    ensures IsInt32(n)
  {
    if u >= TWO_31 then u - TWO_32 else u
  }

  /** The AND of the low `k` bits of `x` and `y`. */
  function AndBits(x: nat, y: nat, k: nat): nat
    decreases k
  {
    if k == 0 then 0 else 2 * AndBits(x / 2, y / 2, k - 1) + (if x % 2 == 1 && y % 2 == 1 then 1 else 0)
  }

  /** `x` and `y` have a set bit in common among their low `k` bits. */
  predicate ShareBit(x: nat, y: nat, k: nat)
    decreases k
  {
    k > 0 && ((x % 2 == 1 && y % 2 == 1) || ShareBit(x / 2, y / 2, k - 1))
  }

  lemma {:induction false} AndBitsBelow(x: nat, y: nat, k: nat)
    ensures AndBits(x, y, k) <= x && AndBits(x, y, k) <= y
    ensures AndBits(x, y, k) > 0 <==> ShareBit(x, y, k)
    decreases k
  {
    if k > 0 {
      AndBitsBelow(x / 2, y / 2, k - 1);
    }
  }

  /** `a & b` on Java ints. */
  function And32(a: int, b: int): (r: int)
    requires IsInt32(a) && IsInt32(b)
    ensures IsInt32(r)
  {
    AndBitsBelow(Unsigned(a), Unsigned(b), 32);
    Signed(AndBits(Unsigned(a), Unsigned(b), 32))
  }

  /** With a non-negative mask, `(a & mask) > 0` says exactly that `a` and `mask` share a set bit. */
  lemma AndPositiveIffSharedBit(a: int, mask: int)
    requires IsInt32(a) && 0 <= mask <= INT_MAX
    ensures And32(a, mask) > 0 <==> ShareBit(Unsigned(a), mask, 32)
  {
    AndBitsBelow(Unsigned(a), mask, 32);
  }
}
