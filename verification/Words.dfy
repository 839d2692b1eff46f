/** Rust's `u64` at the level of its bits: a word is the sequence of its 64 bits, the most
    significant first, and the operators act on bits as the hardware does. */
module Words {
  const BITS: nat := 64

  type Word = w: seq<bool> | |w| == BITS witness Repeat(false, BITS)

  function Repeat(bit: bool, n: nat): (bits: seq<bool>)
    ensures |bits| == n
  {
    seq(n, _ => bit)
  }

  function Zero(): Word { seq(BITS, _ => false) }

  function Max(): Word { seq(BITS, _ => true) }

  function One(): Word { seq(BITS, i => i == BITS - 1) }

  function And(a: Word, b: Word): Word { seq(BITS, i requires 0 <= i < BITS => a[i] && b[i]) }

  function Or(a: Word, b: Word): Word { seq(BITS, i requires 0 <= i < BITS => a[i] || b[i]) }

  function Not(a: Word): Word { seq(BITS, i requires 0 <= i < BITS => !a[i]) }

  function ShiftLeft(w: Word, k: nat): Word {
    seq(BITS, i requires 0 <= i < BITS => i + k < BITS && w[i + k])
  }

  function ShiftRight(w: Word, k: nat): Word {
    seq(BITS, i requires 0 <= i < BITS => k <= i && w[i - k])
  }

  /** The number a sequence of bits stands for. */
  function Value(bits: seq<bool>): nat {
    if bits == [] then 0
    else 2 * Value(bits[..|bits| - 1]) + (if bits[|bits| - 1] then 1 else 0)
  }

  /** Subtraction of 1, with the borrow travelling from the least significant bit. */
  function MinusOne(bits: seq<bool>): (r: seq<bool>)
    ensures |r| == |bits|
  {
    if bits == [] then []
    else
      var high := bits[..|bits| - 1];
      if bits[|bits| - 1] then high + [false] else MinusOne(high) + [true]
  }

  lemma {:induction false} MinusOneValue(bits: seq<bool>)
    requires Value(bits) > 0
    ensures Value(MinusOne(bits)) == Value(bits) - 1
  {
    var high := bits[..|bits| - 1];
    if bits[|bits| - 1] {
      assert (high + [false])[..|high|] == high;
    } else {
      MinusOneValue(high);
      assert (MinusOne(high) + [true])[..|high|] == MinusOne(high);
    }
  }

  /** A power of two minus one: the bits below the only set bit become ones. */
  lemma {:induction false} MinusOnePower(bits: seq<bool>, p: nat)
    requires p < |bits|
    requires forall i :: 0 <= i < |bits| ==> bits[i] == (i == p)
    ensures forall i :: 0 <= i < |bits| ==> MinusOne(bits)[i] == (p < i)
  {
    if p < |bits| - 1 {
      MinusOnePower(bits[..|bits| - 1], p);
    }
  }

  /** Rust's `u64::leading_ones`. */
  function LeadingOnes(bits: seq<bool>): (n: nat)
    ensures n <= |bits|
    ensures forall j :: 0 <= j < n ==> bits[j]
    ensures n < |bits| ==> !bits[n]
  {
    if bits != [] && bits[0] then 1 + LeadingOnes(bits[1..]) else 0
  }

  /** `bit_mask`: the top bit moved right to bit `offset % 64`. */
  function BitMask(offset: nat): Word {
    ShiftRight(ShiftLeft(One(), BITS - 1), offset % BITS)
  }

  lemma BitMaskBits(offset: nat)
    ensures forall i :: 0 <= i < BITS ==> BitMask(offset)[i] == (i == offset % BITS)
  {
  }

  /** The mask `find_next_zero` lays over the bits before `col`. */
  function LeadingMask(col: nat): Word
    requires 0 < col < BITS
  {
    ShiftLeft(MinusOne(ShiftLeft(One(), col)), BITS - col)
  }

  lemma LeadingMaskBits(col: nat)
    requires 0 < col < BITS
    ensures forall i :: 0 <= i < BITS ==> LeadingMask(col)[i] == (i < col)
  {
    MinusOnePower(ShiftLeft(One(), col), BITS - 1 - col);
  }
}
