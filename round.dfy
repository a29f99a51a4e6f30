/**
  * The ICE round function. The 32-bit input is expanded into two 20-bit
  * halves; the third subkey word swaps bits between them (the salt), the
  * first two are XORed in, and four 10-bit indices select S-box entries whose
  * OR is the result.
  */
module Round {

  import opened Words
  import opened SBoxes
  import opened KeySchedule

  /** The right expansion tr: bits 0..9 of p, then bits 8..17 of p. */
  function ExpandRight(p: bv32): bv32 {
    (p & 0x3ff) | ((p << 2) & 0xffc00)
  }

  /** The left expansion tl of the batched engine: bits 16..25 of p, then the rotated bits 24..31, 0, 1. */
  function ExpandLeft(p: bv32): bv32 {
    ((p >> 16) & 0x3ff) | (p.RotateLeft(18) & 0xffc00)
  }

  /** The left expansion as the reference port writes the rotation: `(p >> 14) | (p << 18)`. */
  function ExpandLeftShifts(p: bv32): bv32 {
    ((p >> 16) & 0x3ff) | (((p >> 14) | (p << 18)) & 0xffc00)
  }

  /** The two ways of writing the rotation agree. */
  lemma ExpandLeftAgree(p: bv32)
    ensures ExpandLeftShifts(p) == ExpandLeft(p)
  {
  }

  /** The 10-bit fields of the right expansion: the two middle bits 8 and 9 of the low half appear in both. */
  lemma ExpandRightFields(p: bv32)
    ensures ExpandRight(p) < 0x100000
    ensures ExpandRight(p) & 0x3ff == p & 0x3ff
    ensures ExpandRight(p) >> 10 == (p >> 8) & 0x3ff
  {
  }

  /** The 10-bit fields of the left expansion: bits 16..25, and bits 24..31 followed by 0..1. */
  lemma ExpandLeftFields(p: bv32)
    ensures ExpandLeft(p) < 0x100000
    ensures ExpandLeft(p) & 0x3ff == (p >> 16) & 0x3ff
    ensures ExpandLeft(p) >> 10 == ((p >> 24) | (p << 8)) & 0x3ff
  {
  }

  /** The two salted, keyed 20-bit halves that index the S-boxes. */
  datatype Salted = Salted(al: bv32, ar: bv32)

  /** `al_base = sk[2] & (tl ^ tr)`, `al = al_base ^ tl ^ sk[0]`, `ar = al_base ^ tr ^ sk[1]`. */
  function Salt(p: bv32, sk: Subkey): Salted {
    SaltWith(ExpandLeft(p), ExpandRight(p), sk[0], sk[1], sk[2])
  }

  /** The salt and key mixing applied to the two expansions. */
  function SaltWith(tl: bv32, tr: bv32, k0: bv32, k1: bv32, k2: bv32): Salted {
    var base := k2 & (tl ^ tr);
    Salted(base ^ tl ^ k0, base ^ tr ^ k1)
  }

  /**
    * The salt is a keyed swap: where k2 has a bit set, al takes the bit of tr
    * and ar the bit of tl; elsewhere each keeps its own.
    */
  lemma SaltSwapsLeft(tl: bv32, tr: bv32, k0: bv32, k1: bv32, k2: bv32)
    ensures SaltWith(tl, tr, k0, k1, k2).al == ((tr & k2) | (tl & !k2)) ^ k0
  {
    SwapLeft(tl, tr, k0, k2);
  }

  lemma SaltSwapsRight(tl: bv32, tr: bv32, k0: bv32, k1: bv32, k2: bv32)
    ensures SaltWith(tl, tr, k0, k1, k2).ar == ((tl & k2) | (tr & !k2)) ^ k1
  {
    SwapRight(tl, tr, k1, k2);
  }

  lemma SwapLeft(tl: bv32, tr: bv32, k0: bv32, k2: bv32)
    ensures (k2 & (tl ^ tr)) ^ tl ^ k0 == ((tr & k2) | (tl & !k2)) ^ k0
  {
  }

  lemma SwapRight(tl: bv32, tr: bv32, k1: bv32, k2: bv32)
    ensures (k2 & (tl ^ tr)) ^ tr ^ k1 == ((tl & k2) | (tr & !k2)) ^ k1
  {
  }

  lemma XorBelow(x: bv32, y: bv32)
    requires x < 0x100000
    ensures (x ^ y < 0x100000) == (y < 0x100000)
  {
  }

  lemma SwapBelow(tl: bv32, tr: bv32, s: bv32)
    requires tl < 0x100000 && tr < 0x100000
    ensures (s & (tl ^ tr)) ^ tl < 0x100000 && (s & (tl ^ tr)) ^ tr < 0x100000
  {
  }

  /**
    * The salted halves fit in 20 bits exactly when the first two subkey words
    * do: the expansions and the salt stay in 20 bits, and the XOR with
    * sk[0], sk[1] keeps or breaks the bound.
    */
  lemma SaltWidth(p: bv32, sk: Subkey)
    ensures (Salt(p, sk).al < 0x100000) == (sk[0] < 0x100000)
    ensures (Salt(p, sk).ar < 0x100000) == (sk[1] < 0x100000)
  {
    var tl, tr := ExpandLeft(p), ExpandRight(p);
    ExpandLeftFields(p);
    ExpandRightFields(p);
    var base := sk[2] & (tl ^ tr);
    SwapBelow(tl, tr, sk[2]);
    XorBelow(base ^ tl, sk[0]);
    XorBelow(base ^ tr, sk[1]);
  }

  /** The high 10 bits of a 20-bit field, masked as the batched engine does. */
  function Hi(x: bv32): Index {
    FieldRange(x >> 10);
    ((x >> 10) & 0x3ff) as nat
  }

  /** The low 10 bits of a field. */
  function Lo(x: bv32): Index {
    FieldRange(x);
    (x & 0x3ff) as nat
  }

  lemma FieldRange(x: bv32)
    ensures ((x & 0x3ff) as nat) < 1024
  {
  }

  /** The round function: the OR of the four S-box lookups. */
  function F(p: bv32, sk: Subkey): bv32 {
    var s := Salt(p, sk);
    Or(Or(Or(Entry(0, Hi(s.al)), Entry(1, Lo(s.al))), Entry(2, Hi(s.ar))), Entry(3, Lo(s.ar)))
  }

  /** When a field fits in 20 bits the mask on its high half does nothing: `x >> 10` is already an index. */
  lemma HiUnmasked(x: bv32)
    requires x < 0x100000
    ensures (x >> 10) & 0x3ff == x >> 10 && ((x >> 10) as nat) < 1024 && Hi(x) == (x >> 10) as nat
  {
  }

}
