/**
  * Bit-level vocabulary shared by both engines: single bits of a 32-bit
  * word, and the big-endian byte order in which ICE reads and writes the
  * two halves of a block.
  */
module Words {

  type byte = bv8

  /** The low bit of `b` is set (the test `b & 1 != 0`). */
  predicate Odd(b: bv32) {
    b & 1 != 0
  }

  /** A bit position within a 32-bit word, counting from the least significant bit. */
  type Position = k: nat | k < 32

  /** `x` shifted right by one place. */
  function Half(x: bv32): bv32 {
    x >> 1
  }

  /** `x` shifted right by `k` places, one place at a time (as the loops over the bits of a word do). */
  function ShiftN(x: bv32, k: nat): bv32 {
    if k == 0 then x else Half(ShiftN(x, k - 1))
  }

  /** Bit `k` of `x`. */
  predicate Bit(x: bv32, k: nat) {
    Odd(ShiftN(x, k))
  }

  /** The word whose only set bit is bit `k`: `1 << k`. */
  function Single(k: Position): bv32 {
    if k == 0 then 1 else Single(k - 1) << 1
  }

  // The bitwise operators as functions, so that proofs can name them.

  function Or(x: bv32, y: bv32): bv32 {
    x | y
  }

  function Xor(x: bv32, y: bv32): bv32 {
    x ^ y
  }

  function And(x: bv32, y: bv32): bv32 {
    x & y
  }

  lemma HalfOr(x: bv32, y: bv32)
    ensures Half(Or(x, y)) == Or(Half(x), Half(y))
  {
  }

  lemma HalfXor(x: bv32, y: bv32)
    ensures Half(Xor(x, y)) == Xor(Half(x), Half(y))
  {
  }

  lemma HalfAnd(x: bv32, y: bv32)
    ensures Half(And(x, y)) == And(Half(x), Half(y))
  {
  }

  lemma {:induction false} ShiftNOr(x: bv32, y: bv32, k: nat)
    ensures ShiftN(Or(x, y), k) == Or(ShiftN(x, k), ShiftN(y, k))
  {
    if k > 0 {
      ShiftNOr(x, y, k - 1);
      HalfOr(ShiftN(x, k - 1), ShiftN(y, k - 1));
    }
  }

  lemma {:induction false} ShiftNXor(x: bv32, y: bv32, k: nat)
    ensures ShiftN(Xor(x, y), k) == Xor(ShiftN(x, k), ShiftN(y, k))
  {
    if k > 0 {
      ShiftNXor(x, y, k - 1);
      HalfXor(ShiftN(x, k - 1), ShiftN(y, k - 1));
    }
  }

  lemma {:induction false} ShiftNAnd(x: bv32, y: bv32, k: nat)
    ensures ShiftN(And(x, y), k) == And(ShiftN(x, k), ShiftN(y, k))
  {
    if k > 0 {
      ShiftNAnd(x, y, k - 1);
      HalfAnd(ShiftN(x, k - 1), ShiftN(y, k - 1));
    }
  }

  lemma OddOr(x: bv32, y: bv32)
    ensures Odd(x | y) == (Odd(x) || Odd(y))
  {
  }

  lemma OddXor(x: bv32, y: bv32)
    ensures Odd(x ^ y) == (Odd(x) != Odd(y))
  {
  }

  lemma OddAnd(x: bv32, y: bv32)
    ensures Odd(x & y) == (Odd(x) && Odd(y))
  {
  }

  lemma BitOr(x: bv32, y: bv32, k: nat)
    ensures Bit(x | y, k) == (Bit(x, k) || Bit(y, k))
  {
    ShiftNOr(x, y, k);
    OddOr(ShiftN(x, k), ShiftN(y, k));
    assert Or(x, y) == x | y;
  }

  lemma XorBit(x: bv32, y: bv32, k: nat)
    ensures Bit(x ^ y, k) == (Bit(x, k) != Bit(y, k))
  {
    ShiftNXor(x, y, k);
    OddXor(ShiftN(x, k), ShiftN(y, k));
    assert Xor(x, y) == x ^ y;
  }

  lemma BitAnd(x: bv32, y: bv32, k: nat)
    ensures Bit(x & y, k) == (Bit(x, k) && Bit(y, k))
  {
    ShiftNAnd(x, y, k);
    OddAnd(ShiftN(x, k), ShiftN(y, k));
    assert And(x, y) == x & y;
  }

  /** The 32 single-bit words, computed one doubling at a time. */
  lemma SingleValues()
    ensures Single(0) == 0x00000001
    ensures Single(1) == 0x00000002
    ensures Single(2) == 0x00000004
    ensures Single(3) == 0x00000008
    ensures Single(4) == 0x00000010
    ensures Single(5) == 0x00000020
    ensures Single(6) == 0x00000040
    ensures Single(7) == 0x00000080
    ensures Single(8) == 0x00000100
    ensures Single(9) == 0x00000200
    ensures Single(10) == 0x00000400
    ensures Single(11) == 0x00000800
    ensures Single(12) == 0x00001000
    ensures Single(13) == 0x00002000
    ensures Single(14) == 0x00004000
    ensures Single(15) == 0x00008000
    ensures Single(16) == 0x00010000
    ensures Single(17) == 0x00020000
    ensures Single(18) == 0x00040000
    ensures Single(19) == 0x00080000
    ensures Single(20) == 0x00100000
    ensures Single(21) == 0x00200000
    ensures Single(22) == 0x00400000
    ensures Single(23) == 0x00800000
    ensures Single(24) == 0x01000000
    ensures Single(25) == 0x02000000
    ensures Single(26) == 0x04000000
    ensures Single(27) == 0x08000000
    ensures Single(28) == 0x10000000
    ensures Single(29) == 0x20000000
    ensures Single(30) == 0x40000000
    ensures Single(31) == 0x80000000
  {
    assert Single(0) == 0x00000001;
    assert Single(1) == 0x00000002;
    assert Single(2) == 0x00000004;
    assert Single(3) == 0x00000008;
    assert Single(4) == 0x00000010;
    assert Single(5) == 0x00000020;
    assert Single(6) == 0x00000040;
    assert Single(7) == 0x00000080;
    assert Single(8) == 0x00000100;
    assert Single(9) == 0x00000200;
    assert Single(10) == 0x00000400;
    assert Single(11) == 0x00000800;
    assert Single(12) == 0x00001000;
    assert Single(13) == 0x00002000;
    assert Single(14) == 0x00004000;
    assert Single(15) == 0x00008000;
    assert Single(16) == 0x00010000;
    assert Single(17) == 0x00020000;
    assert Single(18) == 0x00040000;
    assert Single(19) == 0x00080000;
    assert Single(20) == 0x00100000;
    assert Single(21) == 0x00200000;
    assert Single(22) == 0x00400000;
    assert Single(23) == 0x00800000;
    assert Single(24) == 0x01000000;
    assert Single(25) == 0x02000000;
    assert Single(26) == 0x04000000;
    assert Single(27) == 0x08000000;
    assert Single(28) == 0x10000000;
    assert Single(29) == 0x20000000;
    assert Single(30) == 0x40000000;
  }

  /** Shifting a single bit right by one moves it down one place ... */
  lemma SingleShift(p: Position)
    requires p > 0
    ensures Single(p) >> 1 == Single(p - 1)
  {
    SingleValues();
    match p
    case 1 =>
    case 2 =>
    case 3 =>
    case 4 =>
    case 5 =>
    case 6 =>
    case 7 =>
    case 8 =>
    case 9 =>
    case 10 =>
    case 11 =>
    case 12 =>
    case 13 =>
    case 14 =>
    case 15 =>
    case 16 =>
    case 17 =>
    case 18 =>
    case 19 =>
    case 20 =>
    case 21 =>
    case 22 =>
    case 23 =>
    case 24 =>
    case 25 =>
    case 26 =>
    case 27 =>
    case 28 =>
    case 29 =>
    case 30 =>
    case _ =>
  }

  /** ... or drops it from place 0; only the single bit at place 0 is odd. */
  lemma {:induction false} SingleLow(p: Position)
    ensures Odd(Single(p)) == (p == 0)
    ensures p == 0 ==> Single(p) >> 1 == 0
  {
    SingleValues();
    match p
    case 0 =>
    case 1 =>
    case 2 =>
    case 3 =>
    case 4 =>
    case 5 =>
    case 6 =>
    case 7 =>
    case 8 =>
    case 9 =>
    case 10 =>
    case 11 =>
    case 12 =>
    case 13 =>
    case 14 =>
    case 15 =>
    case 16 =>
    case 17 =>
    case 18 =>
    case 19 =>
    case 20 =>
    case 21 =>
    case 22 =>
    case 23 =>
    case 24 =>
    case 25 =>
    case 26 =>
    case 27 =>
    case 28 =>
    case 29 =>
    case 30 =>
    case _ =>
  }

  lemma ZeroShift()
    ensures (0 as bv32) >> 1 == 0
  {
  }

  lemma {:induction false} ShiftNZero(k: nat)
    ensures ShiftN(0, k) == 0
  {
    if k > 0 {
      ShiftNZero(k - 1);
      ZeroShift();
    }
  }

  lemma {:induction false} ShiftNSingle(p: Position, k: nat)
    requires k <= p
    ensures ShiftN(Single(p), k) == Single(p - k)
  {
    if k > 0 {
      ShiftNSingle(p, k - 1);
      SingleShift(p - (k - 1));
    }
  }

  lemma {:induction false} ShiftNSingleOut(p: Position, k: nat)
    requires p < k
    ensures ShiftN(Single(p), k) == 0
  {
    if k == p + 1 {
      ShiftNSingle(p, p);
      SingleLow(0);
    } else {
      ShiftNSingleOut(p, k - 1);
      ZeroShift();
    }
  }

  lemma {:induction false} BitSingle(p: Position, k: nat)
    ensures Bit(Single(p), k) == (p == k)
  {
    if k <= p {
      ShiftNSingle(p, k);
      SingleLow(p - k);
    } else {
      ShiftNSingleOut(p, k);
    }
  }

  /** A bit of a word that lies inside a mask is a bit of the mask. */
  lemma BitInMask(w: bv32, m: bv32, k: nat)
    requires w & m == w && Bit(w, k)
    ensures Bit(m, k)
  {
    BitAnd(w, m, k);
  }

  lemma BitZero(k: nat)
    ensures !Bit(0, k)
  {
    ShiftNZero(k);
  }

  lemma OrZero(x: bv32)
    ensures x | 0 == x
  {
  }

  lemma ClearStep(y: bv32)
    requires y >> 1 == 0 && !Odd(y)
    ensures y == 0
  {
  }

  /** The largest word shifted right k places. */
  function Ceiling(k: nat): bv32 {
    ShiftN(0xffffffff, k)
  }

  /** k single shifts keep a word inside the largest word shifted k places. */
  lemma {:induction false} ShiftNCeiling(x: bv32, k: nat)
    ensures And(ShiftN(x, k), Ceiling(k)) == ShiftN(x, k)
  {
    ShiftNAnd(x, 0xffffffff, k);
    assert And(x, 0xffffffff) == x;
  }

  lemma CeilingOut()
    ensures Ceiling(32) == 0
  {
    assert Ceiling(1) == 0x7fffffff;
    assert Ceiling(2) == 0x3fffffff;
    assert Ceiling(3) == 0x1fffffff;
    assert Ceiling(4) == 0x0fffffff;
    assert Ceiling(5) == 0x07ffffff;
    assert Ceiling(6) == 0x03ffffff;
    assert Ceiling(7) == 0x01ffffff;
    assert Ceiling(8) == 0x00ffffff;
    assert Ceiling(9) == 0x007fffff;
    assert Ceiling(10) == 0x003fffff;
    assert Ceiling(11) == 0x001fffff;
    assert Ceiling(12) == 0x000fffff;
    assert Ceiling(13) == 0x0007ffff;
    assert Ceiling(14) == 0x0003ffff;
    assert Ceiling(15) == 0x0001ffff;
    assert Ceiling(16) == 0x0000ffff;
    assert Ceiling(17) == 0x00007fff;
    assert Ceiling(18) == 0x00003fff;
    assert Ceiling(19) == 0x00001fff;
    assert Ceiling(20) == 0x00000fff;
    assert Ceiling(21) == 0x000007ff;
    assert Ceiling(22) == 0x000003ff;
    assert Ceiling(23) == 0x000001ff;
    assert Ceiling(24) == 0x000000ff;
    assert Ceiling(25) == 0x0000007f;
    assert Ceiling(26) == 0x0000003f;
    assert Ceiling(27) == 0x0000001f;
    assert Ceiling(28) == 0x0000000f;
    assert Ceiling(29) == 0x00000007;
    assert Ceiling(30) == 0x00000003;
    assert Ceiling(31) == 0x00000001;
  }

  /** Shifting a + b places is shifting a places, then b more. */
  lemma {:induction false} ShiftNSplit(y: bv32, a: nat, b: nat)
    ensures ShiftN(y, a + b) == ShiftN(ShiftN(y, a), b)
  {
    if b > 0 {
      ShiftNSplit(y, a, b - 1);
    }
  }

  /** The first eight single shifts are the shifts by one to eight places. */
  lemma ShiftNByte(y: bv32)
    ensures ShiftN(y, 1) == y >> 1 && ShiftN(y, 2) == y >> 2
    ensures ShiftN(y, 3) == y >> 3 && ShiftN(y, 4) == y >> 4
    ensures ShiftN(y, 5) == y >> 5 && ShiftN(y, 6) == y >> 6
    ensures ShiftN(y, 7) == y >> 7 && ShiftN(y, 8) == y >> 8
  {
    assert ShiftN(y, 1) == y >> 1;
    assert ShiftN(y, 2) == (y >> 1) >> 1 == y >> 2;
    assert ShiftN(y, 3) == (y >> 2) >> 1 == y >> 3;
    assert ShiftN(y, 4) == (y >> 3) >> 1 == y >> 4;
    assert ShiftN(y, 5) == (y >> 4) >> 1 == y >> 5;
    assert ShiftN(y, 6) == (y >> 5) >> 1 == y >> 6;
    assert ShiftN(y, 7) == (y >> 6) >> 1 == y >> 7;
    assert ShiftN(y, 8) == (y >> 7) >> 1 == y >> 8;
  }

  /** Eight single shifts are one shift by a byte. */
  lemma ShiftNEight(y: bv32)
    ensures ShiftN(y, 8) == y >> 8
  {
    ShiftNByte(y);
  }

  /** Single shifts by whole bytes are the shifts by 8, 16 and 24 places. */
  lemma ShiftNBytes(y: bv32)
    ensures ShiftN(y, 8) == y >> 8 && ShiftN(y, 16) == y >> 16 && ShiftN(y, 24) == y >> 24
  {
    ShiftNEight(y);
    ShiftNSplit(y, 8, 8);
    ShiftNEight(y >> 8);
    ShiftNSplit(y, 16, 8);
    ShiftNEight(y >> 16);
    ShiftBytes(y);
  }

  lemma ShiftBytes(y: bv32)
    ensures (y >> 8) >> 8 == y >> 16 && (y >> 16) >> 8 == y >> 24
  {
  }

  /** Thirty-two single shifts clear a word. */
  lemma {:induction false} ShiftOut(x: bv32)
    ensures ShiftN(x, 32) == 0
  {
    ShiftNCeiling(x, 32);
    CeilingOut();
    assert And(ShiftN(x, 32), 0) == 0;
  }

  lemma AndZero(x: bv32)
    ensures x & 0 == 0
  {
  }

  /** A word with no set bit at positions k and above is shifted to zero by k places. */
  lemma {:induction false} ClearAbove(d: bv32, k: nat)
    requires k <= 32
    requires forall j: Position :: k <= j ==> !Bit(d, j)
    ensures ShiftN(d, k) == 0
    decreases 32 - k
  {
    if k == 32 {
      ShiftOut(d);
    } else {
      ClearAbove(d, k + 1);
      assert !Bit(d, k);
      ClearStep(ShiftN(d, k));
    }
  }

  /** Two words that agree on every bit are equal. */
  lemma BitsEqual(x: bv32, y: bv32)
    requires forall k: Position :: Bit(x, k) == Bit(y, k)
    ensures x == y
  {
    var d := x ^ y;
    forall k: Position
      ensures !Bit(d, k)
    {
      XorBit(x, y, k);
    }
    ClearAbove(d, 0);
  }

  /** u32::from_be_bytes: the first byte is the most significant. */
  function Load(b: seq<byte>): bv32
    requires |b| == 4
  {
    (b[0] as bv32 << 24) | (b[1] as bv32 << 16) | (b[2] as bv32 << 8) | b[3] as bv32
  }

  /** u32::to_be_bytes. */
  function Store(w: bv32): (b: seq<byte>)
    ensures |b| == 4
  {
    [(w >> 24) as byte, ((w >> 16) & 0xff) as byte, ((w >> 8) & 0xff) as byte, (w & 0xff) as byte]
  }

  /** Reading back what was written gives the word. */
  lemma LoadStore(w: bv32)
    ensures Load(Store(w)) == w
  {
  }

  /** Writing what was read gives the bytes. */
  lemma StoreLoad(b: seq<byte>)
    requires |b| == 4
    ensures Store(Load(b)) == b
  {
  }

  /** u16::from_be_bytes([hi, lo]). */
  function Be16(hi: byte, lo: byte): bv16 {
    (hi as bv16 << 8) | lo as bv16
  }
}
