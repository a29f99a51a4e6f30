/**
  * The Feistel structure shared by both ICE engines, for an arbitrary round
  * function `f` and subkey type `K`. A block is a pair of 32-bit halves; each
  * pair of subkeys drives two half-rounds; encryption walks the schedule
  * forward, decryption walks it backward in pairs with the two subkeys of a
  * pair swapped, and both emit the right half first.
  */
module Feistel {

  import opened Words

  /** The two halves of a block: `l` is read from bytes 0..4, `r` from bytes 4..8. */
  datatype Halves = Halves(l: bv32, r: bv32)

  /** The halves in output order: the final r is written first. */
  function Swap(h: Halves): Halves {
    Halves(h.r, h.l)
  }

  /** First half-round: `l ^= f(r, a)`. */
  function MixLeft<K>(f: (bv32, K) -> bv32, h: Halves, a: K): Halves {
    Halves(Xor(h.l, f(h.r, a)), h.r)
  }

  /** Second half-round: `r ^= f(l, b)`, with the new l. */
  function MixRight<K>(f: (bv32, K) -> bv32, h: Halves, b: K): Halves {
    Halves(h.l, Xor(h.r, f(h.l, b)))
  }

  /** A full round: both half-rounds, with subkeys a then b. */
  function Round<K>(f: (bv32, K) -> bv32, h: Halves, a: K, b: K): Halves {
    MixRight(f, MixLeft(f, h, a), b)
  }

  /** The number of subkey pairs a schedule drives: chunks_exact(2) ignores an odd last subkey. */
  function Pairs<K>(ks: seq<K>): nat {
    |ks| / 2
  }

  /** The first q rounds of encryption: pair j uses subkeys 2j and 2j + 1. */
  function Forward<K>(f: (bv32, K) -> bv32, ks: seq<K>, h: Halves, q: nat): Halves
    requires q <= Pairs(ks)
    decreases |ks|, q, 1
  {
    if q == 0 then h else ForwardLast(f, ks, h, q)
  }

  /**
    * Round q of encryption after the first q - 1. Kept apart from Forward so
    * that unfolding the recursion once stops short of the round function.
    */
  function ForwardLast<K>(f: (bv32, K) -> bv32, ks: seq<K>, h: Halves, q: nat): Halves
    requires 0 < q <= Pairs(ks)
    decreases |ks|, q, 0
  {
    Round(f, Forward(f, ks, h, q - 1), ks[2 * q - 2], ks[2 * q - 1])
  }

  /**
    * The first q rounds of decryption: the j-th pair from the end
    * (rchunks_exact(2)) holds subkeys n - 2j - 2 and n - 2j - 1, and the
    * second of them is applied first.
    */
  function Backward<K>(f: (bv32, K) -> bv32, ks: seq<K>, h: Halves, q: nat): Halves
    requires q <= Pairs(ks)
    decreases |ks|, q, 1
  {
    if q == 0 then h else BackwardLast(f, ks, h, q)
  }

  /** Round q of decryption after the first q - 1, kept apart like ForwardLast. */
  function BackwardLast<K>(f: (bv32, K) -> bv32, ks: seq<K>, h: Halves, q: nat): Halves
    requires 0 < q <= Pairs(ks)
    decreases |ks|, q, 0
  {
    var j := |ks| - 2 * q;
    Round(f, Backward(f, ks, h, q - 1), ks[j + 1], ks[j])
  }

  /** Encryption of a block as halves. */
  function Encrypt<K>(f: (bv32, K) -> bv32, ks: seq<K>, h: Halves): Halves {
    Swap(Forward(f, ks, h, Pairs(ks)))
  }

  /** Decryption of a block as halves. */
  function Decrypt<K>(f: (bv32, K) -> bv32, ks: seq<K>, h: Halves): Halves {
    Swap(Backward(f, ks, h, Pairs(ks)))
  }

  lemma XorTwice(x: bv32, y: bv32)
    ensures Xor(Xor(x, y), y) == x
  {
  }

  /** A round with the subkeys swapped, applied to the swapped output, gives back the swapped input. */
  lemma RoundUndo<K>(f: (bv32, K) -> bv32, h: Halves, a: K, b: K)
    ensures Round(f, Swap(Round(f, h, a, b)), b, a) == Swap(h)
  {
    var m := MixLeft(f, h, a);
    XorTwice(h.r, f(m.l, b));
    XorTwice(h.l, f(h.r, a));
  }

  /**
    * After q backward rounds, the swapped result of all Q forward rounds is
    * the swapped state before the last q of them.
    */
  lemma {:induction false} BackwardUndoesForward<K>(f: (bv32, K) -> bv32, ks: seq<K>, h: Halves, q: nat)
    requires |ks| % 2 == 0 && q <= Pairs(ks)
    ensures Backward(f, ks, Swap(Forward(f, ks, h, Pairs(ks))), q) == Swap(Forward(f, ks, h, Pairs(ks) - q))
  {
    if q > 0 {
      BackwardUndoesForward(f, ks, h, q - 1);
      var p := Pairs(ks) - q;
      RoundUndo(f, Forward(f, ks, h, p), ks[2 * p], ks[2 * p + 1]);
    }
  }

  /**
    * After q forward rounds, the swapped result of all Q backward rounds is
    * the swapped state before the last q of them.
    */
  lemma {:induction false} ForwardUndoesBackward<K>(f: (bv32, K) -> bv32, ks: seq<K>, h: Halves, q: nat)
    requires |ks| % 2 == 0 && q <= Pairs(ks)
    ensures Forward(f, ks, Swap(Backward(f, ks, h, Pairs(ks))), q) == Swap(Backward(f, ks, h, Pairs(ks) - q))
  {
    if q > 0 {
      ForwardUndoesBackward(f, ks, h, q - 1);
      var p := Pairs(ks) - q;
      RoundUndo(f, Backward(f, ks, h, p), ks[|ks| - 2 * p - 1], ks[|ks| - 2 * p - 2]);
    }
  }

  /** Decryption undoes encryption for every round function and every even-length schedule. */
  lemma DecryptEncrypt<K>(f: (bv32, K) -> bv32, ks: seq<K>, h: Halves)
    requires |ks| % 2 == 0
    ensures Decrypt(f, ks, Encrypt(f, ks, h)) == h
  {
    BackwardUndoesForward(f, ks, h, Pairs(ks));
  }

  /** Encryption undoes decryption: the cipher is a permutation of the 64-bit blocks. */
  lemma EncryptDecrypt<K>(f: (bv32, K) -> bv32, ks: seq<K>, h: Halves)
    requires |ks| % 2 == 0
    ensures Encrypt(f, ks, Decrypt(f, ks, h)) == h
  {
    ForwardUndoesBackward(f, ks, h, Pairs(ks));
  }
}
