/**
  * Arithmetic in GF(2^8) as ICE uses it to build its S-boxes: carry-less
  * multiplication of 32-bit words, reduced by XOR with a per-row modulus
  * whenever the running multiplicand reaches 256, and gf_exp7, the chain of
  * four such multiplications the source intends as the seventh power.
  */
module GaloisField {

  import opened Words

  /** `a` has left the field and must be reduced (the test `a >= 256`). */
  predicate Overflows(a: bv32) {
    a >= 256
  }

  /** `x` is an element of GF(2^8): only its low 8 bits may be set. */
  predicate IsByte(x: bv32) {
    x < 256
  }

  /** `m` is a degree-8 modulus, as every S-box modulus of ICE is (313 to 505). */
  predicate IsModulus(m: bv32) {
    256 <= m < 512
  }

  /** One doubling step of the multiplicand: shift left, reduce by `m` if it overflowed. */
  function XTime(a: bv32, m: bv32): bv32 {
    var a2 := a << 1;
    if Overflows(a2) then a2 ^ m else a2
  }

  /** The contribution of the current low bit of `b`: `a` if it is set, 0 otherwise. */
  function Addend(a: bv32, b: bv32): bv32 {
    if Odd(b) then a else 0
  }

  /**
    * The product that the shift-and-reduce loop computes: the XOR of
    * XTime^i(a) over the set bits i of b.
    */
  function GfProduct(a: bv32, b: bv32, m: bv32): bv32
    decreases b
  {
    if b == 0 then 0 else Addend(a, b) ^ GfProduct(XTime(a, m), b >> 1, m)
  }

  /** One turn of the loop preserves `res ^ GfProduct(a, b, m)`. */
  lemma {:induction false} GfLoopStep(r0: bv32, a0: bv32, b0: bv32, m: bv32, r1: bv32, a1: bv32, b1: bv32)
    requires b0 != 0
    requires r1 == r0 ^ Addend(a0, b0) && a1 == XTime(a0, m) && b1 == b0 >> 1
    ensures r1 ^ GfProduct(a1, b1, m) == r0 ^ GfProduct(a0, b0, m)
  {
    assert GfProduct(a0, b0, m) == Addend(a0, b0) ^ GfProduct(a1, b1, m);
  }

  /**
    * gf_mult: multiplication of `a0` by `b0` modulo `m`. The loop ends because
    * `b` loses its low bit on every turn (it decreases as an unsigned number).
    */
  method GfMult(a0: bv32, b0: bv32, m: bv32) returns (res: bv32)
    ensures res == GfProduct(a0, b0, m)
  {
    var a, b := a0, b0;
    res := 0;
    while b != 0
      invariant res ^ GfProduct(a, b, m) == GfProduct(a0, b0, m)
      decreases b
    {
      ghost var pa, pb, pr := a, b, res;
      if Odd(b) {
        res := res ^ a;
      }
      a := a << 1;
      b := b >> 1;
      if Overflows(a) {
        a := a ^ m;
      }
      GfLoopStep(pr, pa, pb, m, res, a, b);
    }
  }

  /** gf_exp7: the products b * b, then b * x, then x * x, then b * x; 0 for b == 0. */
  function GfExp7(b: bv32, m: bv32): (r: bv32)
    ensures b == 0 ==> r == 0
  {
    if b == 0 then 0
    else
      var x := GfProduct(b, b, m);
      var x := GfProduct(b, x, m);
      var x := GfProduct(x, x, m);
      GfProduct(b, x, m)
  }

  lemma XorBytes(x: bv32, y: bv32)
    requires IsByte(x) && IsByte(y)
    ensures IsByte(x ^ y)
  {
  }

  lemma XTimeByte(a: bv32, m: bv32)
    requires IsByte(a) && IsModulus(m)
    ensures IsByte(XTime(a, m))
  {
  }

  /** Multiplication never leaves the field: a byte times anything is a byte. */
  lemma {:induction false} GfProductByte(a: bv32, b: bv32, m: bv32)
    requires IsByte(a) && IsModulus(m)
    ensures IsByte(GfProduct(a, b, m))
    decreases b
  {
    if b != 0 {
      XTimeByte(a, m);
      GfProductByte(XTime(a, m), b >> 1, m);
      XorBytes(Addend(a, b), GfProduct(XTime(a, m), b >> 1, m));
    }
  }

  /** gf_exp7 of a byte is a byte, so shifting it by up to 24 bits loses nothing. */
  lemma GfExp7Byte(b: bv32, m: bv32)
    requires IsByte(b) && IsModulus(m)
    ensures IsByte(GfExp7(b, m))
  {
    if b != 0 {
      var x1 := GfProduct(b, b, m);
      GfProductByte(b, b, m);
      var x2 := GfProduct(b, x1, m);
      GfProductByte(b, x1, m);
      var x3 := GfProduct(x2, x2, m);
      GfProductByte(x2, x2, m);
      GfProductByte(b, x3, m);
    }
  }

  lemma XTimeZero(m: bv32)
    ensures XTime(0, m) == 0
  {
  }

  /** One is the multiplicative identity. */
  lemma {:induction false} GfProductOne(a: bv32, m: bv32)
    ensures GfProduct(a, 1, m) == a
  {
    assert GfProduct(a, 1, m) == Addend(a, 1) ^ GfProduct(XTime(a, m), 0, m);
  }

  /** Zero is absorbing: 0 * b == 0 for every b. */
  lemma {:induction false} GfProductZero(b: bv32, m: bv32)
    ensures GfProduct(0, b, m) == 0
    decreases b
  {
    if b != 0 {
      XTimeZero(m);
      GfProductZero(b >> 1, m);
    }
  }
}
