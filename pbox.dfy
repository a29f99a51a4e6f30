/**
  * The ICE P-box: a fixed 32-bit permutation applied to every S-box output.
  * ice_perm32 ORs together the table entries selected by the set bits of its
  * argument; the lemmas show that this moves input bit j to output bit
  * Pos(j), that Pos is a bijection, and hence that no bit is lost or
  * duplicated.
  */
module PBox {

  import opened Words

  /** ICE_PBOX: the image of each input bit, least significant first. */
  const PBOX: seq<bv32> := [
    0x00000001, 0x00000080, 0x00000400, 0x00002000, 0x00080000, 0x00200000, 0x01000000, 0x40000000,
    0x00000008, 0x00000020, 0x00000100, 0x00004000, 0x00010000, 0x00800000, 0x04000000, 0x20000000,
    0x00000004, 0x00000010, 0x00000200, 0x00008000, 0x00020000, 0x00400000, 0x08000000, 0x10000000,
    0x00000002, 0x00000040, 0x00000800, 0x00001000, 0x00040000, 0x00100000, 0x02000000, 0x80000000
  ]

  /** The position of the single bit of PBOX[j]. */
  function Pos(j: Position): Position {
    match j
    case 0 => 0
    case 1 => 7
    case 2 => 10
    case 3 => 13
    case 4 => 19
    case 5 => 21
    case 6 => 24
    case 7 => 30
    case 8 => 3
    case 9 => 5
    case 10 => 8
    case 11 => 14
    case 12 => 16
    case 13 => 23
    case 14 => 26
    case 15 => 29
    case 16 => 2
    case 17 => 4
    case 18 => 9
    case 19 => 15
    case 20 => 17
    case 21 => 22
    case 22 => 27
    case 23 => 28
    case 24 => 1
    case 25 => 6
    case 26 => 11
    case 27 => 12
    case 28 => 18
    case 29 => 20
    case 30 => 25
    case _ => 31
  }

  /** The input bit whose image is output bit j. */
  function Inv(j: Position): Position {
    match j
    case 0 => 0
    case 1 => 24
    case 2 => 16
    case 3 => 8
    case 4 => 17
    case 5 => 9
    case 6 => 25
    case 7 => 1
    case 8 => 10
    case 9 => 18
    case 10 => 2
    case 11 => 26
    case 12 => 27
    case 13 => 3
    case 14 => 11
    case 15 => 19
    case 16 => 12
    case 17 => 20
    case 18 => 28
    case 19 => 4
    case 20 => 29
    case 21 => 5
    case 22 => 21
    case 23 => 13
    case 24 => 6
    case 25 => 30
    case 26 => 14
    case 27 => 22
    case 28 => 23
    case 29 => 15
    case 30 => 7
    case _ => 31
  }

  /** Every table entry has exactly one bit set, at Pos(j). */
  lemma PBoxSingleBits()
    ensures |PBOX| == 32
    ensures forall j: Position :: PBOX[j] == Single(Pos(j))
  {
    SingleValues();
    forall j: Position
      ensures PBOX[j] == Single(Pos(j))
    {
      match j
      case 0 =>
      case 1 =>
      case 2 =>
      case 3 =>
      case 4 =>
      case 5 =>
      case 6 =>
      case 7 =>
      case 8 =>
      case 9 =>
      case 10 =>
      case 11 =>
      case 12 =>
      case 13 =>
      case 14 =>
      case 15 =>
      case 16 =>
      case 17 =>
      case 18 =>
      case 19 =>
      case 20 =>
      case 21 =>
      case 22 =>
      case 23 =>
      case 24 =>
      case 25 =>
      case 26 =>
      case 27 =>
      case 28 =>
      case 29 =>
      case 30 =>
      case _ =>
    }
  }

  /** Inv undoes Pos ... */
  lemma InvUndoesPos()
    ensures forall j: Position :: Inv(Pos(j)) == j
  {
  }

  /** ... and Pos undoes Inv: the two are inverse permutations of the 32 positions. */
  lemma PosUndoesInv()
    ensures forall k: Position :: Pos(Inv(k)) == k
  {
  }

  /** What input bit `j` adds to the result: the table entry, if the bit is set. */
  function Contribution(x: bv32, j: Position): bv32 {
    if Bit(x, j) then Single(Pos(j)) else 0
  }

  /** The OR of the contributions of the first `n` input bits. */
  function PermUpTo(x: bv32, n: nat): bv32
    requires n <= 32
  {
    if n == 0 then 0 else PermUpTo(x, n - 1) | Contribution(x, n - 1)
  }

  /**
    * The number of bits ice_perm32 walks through. A function rather than the
    * literal, so that the solver unfolds PermUpTo only where a proof asks.
    */
  function Width(): nat {
    32
  }

  /** ice_perm32 as a value. */
  function Permuted(x: bv32): bv32 {
    PermUpTo(x, Width())
  }

  lemma Perm32Step(x0: bv32, i: Position, x: bv32, r0: bv32, r1: bv32)
    requires x == ShiftN(x0, i) && r0 == PermUpTo(x0, i)
    requires r1 == if Odd(x) then r0 | PBOX[i] else r0
    ensures r1 == PermUpTo(x0, i + 1) && x >> 1 == ShiftN(x0, i + 1)
  {
    PBoxSingleBits();
    if !Odd(x) {
      OrZero(r0);
    }
  }

  /**
    * ice_perm32: walks the table while shifting `x` right, so that the low
    * bit of `x` is input bit i when entry i is considered.
    */
  method Perm32(x0: bv32) returns (res: bv32)
    ensures res == Permuted(x0)
  {
    var x := x0;
    res := 0;
    var i := 0;
    while i < 32
      invariant i <= 32 && x == ShiftN(x0, i) && res == PermUpTo(x0, i)
    {
      ghost var r0 := res;
      if Odd(x) {
        res := res | PBOX[i];
      }
      Perm32Step(x0, i, x, r0, res);
      x := x >> 1;
      i := i + 1;
    }
  }

  lemma PosInv(j: Position, k: Position)
    ensures (Pos(j) == k) == (Inv(k) == j)
  {
    InvUndoesPos();
    PosUndoesInv();
  }

  lemma ContributionBit(x: bv32, j: Position, k: Position)
    ensures Bit(Contribution(x, j), k) == (Inv(k) == j && Bit(x, j))
  {
    if Bit(x, j) {
      BitSingle(Pos(j), k);
      PosInv(j, k);
    } else {
      BitZero(k);
    }
  }

  /** Output bit k of the partial result is set iff its source bit is among the first n and set. */
  lemma {:induction false} PermUpToBit(x: bv32, n: nat, k: Position)
    requires n <= 32
    ensures Bit(PermUpTo(x, n), k) == (Inv(k) < n && Bit(x, Inv(k)))
  {
    if n == 0 {
      BitZero(k);
    } else {
      PermUpToBit(x, n - 1, k);
      PermUpToBitStep(x, n - 1, k, PermUpTo(x, n - 1), Contribution(x, n - 1), PermUpTo(x, n));
    }
  }

  /** Adding input bit j to the partial result adds output bit Pos(j) and no other. */
  lemma PermUpToBitStep(x: bv32, j: Position, k: Position, p: bv32, c: bv32, q: bv32)
    requires p == PermUpTo(x, j) && c == Contribution(x, j) && q == PermUpTo(x, j + 1)
    requires Bit(p, k) == (Inv(k) < j && Bit(x, Inv(k)))
    ensures Bit(q, k) == (Inv(k) < j + 1 && Bit(x, Inv(k)))
  {
    PermUpToNext(x, j);
    ContributionBit(x, j, k);
    OrBitStep(x, j, k, Inv(k), p, c, q);
  }

  lemma PermUpToNext(x: bv32, j: Position)
    ensures PermUpTo(x, j + 1) == PermUpTo(x, j) | Contribution(x, j)
  {
  }

  lemma OrBitStep(x: bv32, j: nat, k: Position, i: nat, p: bv32, c: bv32, q: bv32)
    requires q == p | c
    requires Bit(p, k) == (i < j && Bit(x, i))
    requires Bit(c, k) == (i == j && Bit(x, j))
    ensures Bit(q, k) == (i < j + 1 && Bit(x, i))
  {
    BitOr(p, c, k);
  }

  /** Output bit k of ice_perm32 is input bit Inv(k). */
  lemma PermutedBit(x: bv32, k: Position)
    ensures Bit(Permuted(x), k) == Bit(x, Inv(k))
  {
    PermUpToBit(x, 32, k);
  }

  /** Input bit j of ice_perm32 lands on output bit Pos(j). */
  lemma PermutedMovesBit(x: bv32, j: Position)
    ensures Bit(Permuted(x), Pos(j)) == Bit(x, j)
  {
    InvUndoesPos();
    PermutedBit(x, Pos(j));
  }

  /** ice_perm32 is injective: distinct inputs give distinct outputs. */
  lemma PermutedInjective(x: bv32, y: bv32)
    requires Permuted(x) == Permuted(y)
    ensures x == y
  {
    forall j: Position
      ensures Bit(x, j) == Bit(y, j)
    {
      PermutedMovesBit(x, j);
      PermutedMovesBit(y, j);
    }
    BitsEqual(x, y);
  }

  /** The number of set bits among the first n positions. */
  function CountBits(y: bv32, n: nat): nat
    requires n <= 32
  {
    if n == 0 then 0 else CountBits(y, n - 1) + (if Bit(y, n - 1) then 1 else 0)
  }

  function PopCount(y: bv32): nat {
    CountBits(y, 32)
  }

  /** Setting a clear bit p adds one to the count of every prefix that contains p. */
  lemma {:induction false} CountOrSingle(y: bv32, p: Position, n: nat)
    requires n <= 32 && !Bit(y, p)
    ensures CountBits(y | Single(p), n) == CountBits(y, n) + (if p < n then 1 else 0)
  {
    if n != 0 {
      CountOrSingle(y, p, n - 1);
      BitOrSingle(y, p, n - 1);
    }
  }

  lemma {:induction false} BitOrSingle(y: bv32, p: Position, k: nat)
    ensures Bit(y | Single(p), k) == (Bit(y, k) || p == k)
  {
    var s := Single(p);
    BitOr(y, s, k);
    BitSingle(p, k);
    assert Bit(y | s, k) == (Bit(y, k) || Bit(s, k));
  }

  lemma {:induction false} CountBitsZero(n: nat)
    requires n <= 32
    ensures CountBits(0, n) == 0
  {
    if n != 0 {
      CountBitsZero(n - 1);
      BitZero(n - 1);
    }
  }

  /** A set input bit n - 1 adds its image, a bit not yet set, to the output ... */
  lemma PermUpToCountSet(x: bv32, n: nat)
    requires 0 < n <= 32 && Bit(x, n - 1)
    ensures PopCount(PermUpTo(x, n)) == PopCount(PermUpTo(x, n - 1)) + 1
  {
    ImageNotYetSet(x, n - 1);
    CountOrSingle(PermUpTo(x, n - 1), Pos(n - 1), 32);
    PermUpToSet(x, n);
  }

  lemma PermUpToSet(x: bv32, n: nat)
    requires 0 < n <= 32 && Bit(x, n - 1)
    ensures PermUpTo(x, n) == PermUpTo(x, n - 1) | Single(Pos(n - 1))
  {
  }

  /** The image of input bit n is not among the images of the bits before it. */
  lemma {:induction false} ImageNotYetSet(x: bv32, n: nat)
    requires n < 32
    ensures !Bit(PermUpTo(x, n), Pos(n))
  {
    PosInv(n, Pos(n));
    PermUpToBit(x, n, Pos(n));
  }

  /** ... and a clear one adds nothing. */
  lemma PermUpToCountClear(x: bv32, n: nat)
    requires 0 < n <= 32 && !Bit(x, n - 1)
    ensures PermUpTo(x, n) == PermUpTo(x, n - 1)
  {
    OrZero(PermUpTo(x, n - 1));
  }

  lemma {:induction false} PermUpToCount(x: bv32, n: nat)
    requires n <= 32
    ensures PopCount(PermUpTo(x, n)) == CountBits(x, n)
  {
    if n == 0 {
      CountBitsZero(32);
    } else {
      PermUpToCount(x, n - 1);
      if Bit(x, n - 1) {
        PermUpToCountSet(x, n);
      } else {
        PermUpToCountClear(x, n);
      }
    }
  }

  /** The count over a + b positions: the first a, then b more of the word shifted a places. */
  lemma {:induction false} CountSplit(y: bv32, a: nat, b: nat)
    requires a + b <= 32
    ensures CountBits(y, a + b) == CountBits(y, a) + CountBits(ShiftN(y, a), b)
  {
    if b > 0 {
      CountSplit(y, a, b - 1);
      ShiftNSplit(y, a, b - 1);
    }
  }

  /** A word whose low byte is clear has no set bit among its first eight. */
  lemma ClearByte(z: bv32)
    requires And(z, 0xff) == 0
    ensures CountBits(z, 8) == 0
  {
    ShiftNByte(z);
    assert !Odd(z) && !Odd(z >> 1) && !Odd(z >> 2) && !Odd(z >> 3);
    assert !Odd(z >> 4) && !Odd(z >> 5) && !Odd(z >> 6) && !Odd(z >> 7);
    assert CountBits(z, 1) == 0;
    assert CountBits(z, 2) == 0;
    assert CountBits(z, 3) == 0;
    assert CountBits(z, 4) == 0;
    assert CountBits(z, 5) == 0;
    assert CountBits(z, 6) == 0;
    assert CountBits(z, 7) == 0;
  }

  /** The set bits of a word, counted byte by byte. */
  lemma ByteCounts(y: bv32)
    ensures PopCount(y) == CountBits(y, 8) + CountBits(ShiftN(y, 8), 8) + CountBits(ShiftN(y, 16), 8) + CountBits(ShiftN(y, 24), 8)
  {
    CountSplit(y, 8, 24);
    CountSplit(ShiftN(y, 8), 8, 16);
    ShiftNSplit(y, 8, 8);
    CountSplit(ShiftN(y, 16), 8, 8);
    ShiftNSplit(y, 16, 8);
  }

  /** ice_perm32 keeps the number of set bits: it only moves bits. */
  lemma PermPreservesPopCount(x: bv32)
    ensures PopCount(Permuted(x)) == PopCount(x)
  {
    PermUpToCount(x, 32);
  }
}
