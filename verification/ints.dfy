/** Machine integers of the firmware, as subset types of the unbounded integers,
    the byte operations the drivers use, and the few facts about integer
    division that the models need. */
module Ints {

  const U8_LIMIT: nat := 0x100
  const U16_LIMIT: nat := 0x1_0000
  const U32_LIMIT: nat := 0x1_0000_0000

  type u8 = x: nat | x < U8_LIMIT
  type u16 = x: nat | x < U16_LIMIT
  type u32 = x: nat | x < U32_LIMIT

  datatype Option<+T> = None | Some(value: T)

  /** `x as u8` in Rust keeps the low eight bits. */
  function TruncateU8(x: nat): (r: u8)
    ensures x < U8_LIMIT ==> r == x
    ensures (x - r) % U8_LIMIT == 0
  {
    x % U8_LIMIT
  }

  /** Bitwise and, least significant bit first. */
  function BitAnd(a: nat, b: nat): nat
    decreases a
  {
    if a == 0 || b == 0 then 0
    else 2 * BitAnd(a / 2, b / 2) + (if a % 2 == 1 && b % 2 == 1 then 1 else 0)
  }

  /** Bitwise or, least significant bit first. */
  function BitOr(a: nat, b: nat): nat
    decreases a + b
  {
    if a == 0 then b
    else if b == 0 then a
    else 2 * BitOr(a / 2, b / 2) + (if a % 2 == 1 || b % 2 == 1 then 1 else 0)
  }

  /** Logical right shift: `n` halvings, dropping the lowest bit each time. */
  function ShiftRight(a: nat, n: nat): nat {
    if n == 0 then a else ShiftRight(a / 2, n - 1)
  }

  /** Or-ing two values with no bit in common adds them. */
  lemma {:induction false} OrOfDisjointIsSum(a: nat, b: nat)
    requires BitAnd(a, b) == 0
    ensures BitOr(a, b) == a + b
    decreases a + b
  {
    if a != 0 && b != 0 {
      OrOfDisjointIsSum(a / 2, b / 2);
    }
  }

  /** Masking with 0xF keeps the low nibble. */
  lemma {:induction false} MaskLowNibble(a: nat)
    ensures BitAnd(a, 0xF) == a % 16
  {
    if a != 0 {
      var h, t := a / 2, a % 2;
      assert BitAnd(a, 15) == 2 * BitAnd(h, 7) + t;
      MaskLowThreeBits(h);
      var q, r := a / 16, a % 16;
      var s, u := r / 2, r % 2;
      Recombine(r);
      DivModTwo(a, 8 * q + s, u);
      DivModEight(h, q, s);
    }
  }

  lemma {:induction false} MaskLowThreeBits(a: nat)
    ensures BitAnd(a, 7) == a % 8
  {
    if a != 0 {
      var h, t := a / 2, a % 2;
      assert BitAnd(a, 7) == 2 * BitAnd(h, 3) + t;
      MaskLowTwoBits(h);
      var q, r := a / 8, a % 8;
      var s, u := r / 2, r % 2;
      Recombine(r);
      DivModTwo(a, 4 * q + s, u);
      DivModFour(h, q, s);
    }
  }

  lemma {:induction false} MaskLowTwoBits(a: nat)
    ensures BitAnd(a, 3) == a % 4
  {
    if a != 0 {
      var h, t := a / 2, a % 2;
      assert BitAnd(a, 3) == 2 * BitAnd(h, 1) + t;
      MaskLowBit(h);
      var q, r := a / 4, a % 4;
      var s, u := r / 2, r % 2;
      Recombine(r);
      DivModTwo(a, 2 * q + s, u);
      DivModTwo(h, q, s);
    }
  }

  lemma MaskLowBit(a: nat)
    ensures BitAnd(a, 1) == a % 2
  {}

  /** Shifting right by four leaves the high nibble. */
  lemma HighNibbleShift(a: nat)
    ensures ShiftRight(a, 4) == a / 16
  {
    var q, r := a / 16, a % 16;
    var a1, r1 := a / 2, r / 2;
    Recombine(r);
    DivModTwo(a, 8 * q + r1, r % 2);
    var a2, r2 := a1 / 2, r1 / 2;
    Recombine(r1);
    DivModTwo(a1, 4 * q + r2, r1 % 2);
    var a3, r3 := a2 / 2, r2 / 2;
    Recombine(r2);
    DivModTwo(a2, 2 * q + r3, r2 % 2);
    Recombine(r3);
    DivModTwo(a3, q, r3);
    assert ShiftRight(a, 4) == ShiftRight(a2, 2);
    assert ShiftRight(a2, 2) == ShiftRight(a3, 1);
    assert ShiftRight(a3, 1) == a3 / 2;
  }

  /** Division with remainder is unique, for the divisors the bit lemmas use. */
  lemma DivModTwo(x: nat, k: nat, b: nat)
    requires x == 2 * k + b && b < 2
    ensures x / 2 == k && x % 2 == b
  {}

  lemma DivModFour(x: nat, k: nat, b: nat)
    requires x == 4 * k + b && b < 4
    ensures x / 4 == k && x % 4 == b
  {}

  lemma DivModEight(x: nat, k: nat, b: nat)
    requires x == 8 * k + b && b < 8
    ensures x / 8 == k && x % 8 == b
  {}

  lemma Recombine(r: nat)
    ensures 2 * (r / 2) + r % 2 == r
  {}

  lemma MulLeftMono(a: nat, b: nat, c: nat)
    requires a <= b
    ensures a * c <= b * c
  {}

  /** A lower bound q of the quotient: q * d fits in n. */
  lemma DivAtLeast(n: nat, d: nat, q: nat)
    requires d > 0 && q * d <= n
    ensures q <= n / d
  {
    if q > n / d {
      MulLeftMono(n / d + 1, q, d);
      assert false;
    }
  }

  /** An upper bound q of the quotient: n lies below (q + 1) * d. */
  lemma DivAtMost(n: nat, d: nat, q: nat)
    requires d > 0 && n < (q + 1) * d
    ensures n / d <= q
  {
    if n / d > q {
      MulLeftMono(q + 1, n / d, d);
      assert false;
    }
  }
}
