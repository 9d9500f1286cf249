/** 64-bit two's complement, bit by bit, over unbounded integers. */
module Bits64 {
  const WIDTH: nat := 64

  /** Values are 64-bit signed. */
  predicate Fits(x: int) { -0x8000_0000_0000_0000 <= x < 0x8000_0000_0000_0000 }

  function Pow2(k: nat): (p: nat)
    ensures p > 0
  {
    if k == 0 then 1 else 2 * Pow2(k - 1)
  }

  /** Bit `k` of the two's complement of any integer. */
  predicate BitAt(x: int, k: nat)
    decreases k
  {
    if k == 0 then x % 2 == 1 else BitAt(x / 2, k - 1)
  }

  /** The value of these bits of two's complement, lowest first. */
  function Word(bits: seq<bool>): int
    requires bits != []
  {
    if |bits| == 1 then (if bits[0] then -1 else 0) else (if bits[0] then 1 else 0) + 2 * Word(bits[1..])
  }

  function BitwiseOr(a: int, b: int): int { Word(seq(WIDTH, (k: nat) => BitAt(a, k) || BitAt(b, k))) }

  function BitwiseXor(a: int, b: int): int { Word(seq(WIDTH, (k: nat) => BitAt(a, k) != BitAt(b, k))) }

  function BitwiseAnd(a: int, b: int): int { Word(seq(WIDTH, (k: nat) => BitAt(a, k) && BitAt(b, k))) }

  /** The 64-bit value congruent to any integer. */
  function Wrapped(x: int): (r: int)
    ensures Fits(r)
  {
    (x + 0x8000_0000_0000_0000) % 0x1_0000_0000_0000_0000 - 0x8000_0000_0000_0000
  }

  lemma {:induction false} WrappedCongruent(x: int)
    ensures (Wrapped(x) - x) % 0x1_0000_0000_0000_0000 == 0
  {
    var m := 0x1_0000_0000_0000_0000;
    var y := x + 0x8000_0000_0000_0000;
    assert y == y / m * m + y % m;
    assert Wrapped(x) - x == -(y / m) * m;
  }

  lemma {:induction false} WordBits(bits: seq<bool>, j: nat)
    requires j < |bits|
    ensures BitAt(Word(bits), j) == bits[j]
  {
    if |bits| > 1 {
      assert Word(bits) / 2 == Word(bits[1..]);
      if j > 0 {
        WordBits(bits[1..], j - 1);
      }
    }
  }

  lemma {:induction false} WordRange(bits: seq<bool>)
    requires bits != []
    ensures 0 - Pow2(|bits| - 1) <= Word(bits) < Pow2(|bits| - 1)
  {
    if |bits| > 1 {
      WordRange(bits[1..]);
    }
  }

  lemma {:induction false} EightMore(k: nat)
    ensures Pow2(k + 8) == 256 * Pow2(k)
  {
    assert Pow2(k + 2) == 4 * Pow2(k) && Pow2(k + 4) == 4 * Pow2(k + 2) && Pow2(k + 6) == 4 * Pow2(k + 4);
  }

  lemma {:induction false} TopBit(k: nat)
    requires k == 63
    ensures Pow2(k) == 0x8000_0000_0000_0000
  {
    EightMore(k - 8);
    EightMore(k - 16);
    EightMore(k - 24);
    EightMore(k - 32);
    EightMore(k - 40);
    EightMore(k - 48);
    EightMore(k - 56);
    SevenBits(k - 56);
  }

  lemma {:induction false} SevenBits(k: nat)
    requires k == 7
    ensures Pow2(k) == 128
  {
    assert Pow2(k - 6) == 2;
    assert Pow2(k - 4) == 8;
    assert Pow2(k - 2) == 32;
  }

  /** A word of 64 bits is a 64-bit value with those bits. */
  lemma {:induction false} WordIs(bits: seq<bool>)
    requires |bits| == WIDTH
    ensures Fits(Word(bits)) && forall j: nat | j < WIDTH :: BitAt(Word(bits), j) == bits[j]
  {
    WordRange(bits);
    TopBit(|bits| - 1);
    forall j: nat | j < WIDTH
      ensures BitAt(Word(bits), j) == bits[j]
    {
      WordBits(bits, j);
    }
  }
}
