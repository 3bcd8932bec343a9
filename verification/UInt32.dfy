/** The unsigned 32-bit arithmetic of the source: subtraction wraps, a left shift drops what leaves bit 31. */
module UInt32 {

  const WORD: int := 0x1_0000_0000

  type u32 = x: int | 0 <= x < 0x1_0000_0000 witness 0

  function Minus(a: u32, b: u32): u32 {
    if b <= a then a - b else a - b + WORD
  }

  /** The signed reading of a difference, as static_cast<int32_t>(a - b). */
  function SignedMinus(a: u32, b: u32): int {
    var d := Minus(a, b);
    if d < 0x8000_0000 then d else d - WORD
  }

  /** The bit of weight 2^k. */
  predicate Bit(b: nat, k: nat) {
    if k == 0 then b % 2 == 1 else Bit(b / 2, k - 1)
  }

  /** b | (1u << k) */
  function WithBit(b: u32, k: nat): u32
    requires k < 32
  {
    WordIsPow2();
    WithBitBelow(b, k, 32)
  }

  function WithBitBelow(b: int, k: nat, width: nat): (r: int)
    requires k < width && 0 <= b < Pow2(width)
    ensures 0 <= r < Pow2(width)
  {
    Pow2Doubles(width);
    if k == 0 then (if b % 2 == 1 then b else b + 1)
    else
      var half := WithBitBelow(b / 2, k - 1, width - 1);
      2 * half + b % 2
  }

  function Pow2(n: nat): nat { if n == 0 then 1 else 2 * Pow2(n - 1) }

  lemma Pow2Doubles(n: nat)
    requires n > 0
    ensures Pow2(n) == 2 * Pow2(n - 1)
  {}

  lemma Pow2Plus4(n: nat)
    ensures Pow2(n + 4) == 16 * Pow2(n)
  {
    assert Pow2(n + 2) == 4 * Pow2(n);
    assert Pow2(n + 4) == 4 * Pow2(n + 2);
  }

  lemma WordIsPow2()
    ensures Pow2(31) == 0x8000_0000 && Pow2(32) == WORD
  {
    Pow2Plus4(0); Pow2Plus4(4); Pow2Plus4(8); Pow2Plus4(12);
    Pow2Plus4(16); Pow2Plus4(20); Pow2Plus4(24); Pow2Plus4(28);
    assert Pow2(32) == 2 * Pow2(31);
  }

  /** b << n for n < 32 */
  function ShiftLeft(b: u32, n: nat): u32 {
    if n == 0 then b
    else
      var c := ShiftLeft(b, n - 1);
      if 2 * c < WORD then 2 * c else 2 * c - WORD
  }

  lemma BitOfZero(k: nat)
    ensures !Bit(0, k)
  {}

  lemma {:induction false} BitOfWithBit(b: int, k: nat, width: nat, j: nat)
    requires k < width && 0 <= b < Pow2(width)
    ensures Bit(WithBitBelow(b, k, width), j) <==> j == k || Bit(b, j)
  {
    if k > 0 && j > 0 { BitOfWithBit(b / 2, k - 1, width - 1, j - 1); }
  }

  lemma {:induction false} DropTopBit(c: nat, n: nat, k: nat)
    requires k < n && Pow2(n) <= c
    ensures Bit(c - Pow2(n), k) <==> Bit(c, k)
  {
    if k > 0 {
      assert (c - Pow2(n)) / 2 == c / 2 - Pow2(n - 1);
      DropTopBit(c / 2, n - 1, k - 1);
    }
  }

  lemma {:induction false} BitOfShift(b: u32, n: nat, j: nat)
    requires j < 32
    ensures Bit(ShiftLeft(b, n), j) <==> j >= n && Bit(b, j - n)
  {
    if n > 0 && j > 0 {
      BitOfShift(b, n - 1, j - 1);
      var c := ShiftLeft(b, n - 1);
      WordIsPow2();
      if 2 * c >= WORD { DropTopBit(c, 31, j - 1); }
    }
  }

  /** b >> n */
  function ShiftRight(b: u32, n: nat): u32 {
    if n == 0 then b else ShiftRight(b, n - 1) / 2
  }

  lemma {:induction false} BitOfShiftRight(b: u32, n: nat, k: nat)
    ensures Bit(ShiftRight(b, n), k) <==> Bit(b, n + k)
  {
    if n > 0 { BitOfShiftRight(b, n - 1, k + 1); }
  }
}
