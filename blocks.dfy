/**
  * Blocks and buffers. A block is 8 bytes: `l` is the big-endian word in
  * bytes 0..4 and `r` the one in bytes 4..8; after the rounds the final r is
  * written to bytes 0..4 and l to bytes 4..8. A buffer whose length is a
  * multiple of 8 is transformed block by block (ECB).
  */
module Blocks {

  import opened Words
  import opened Feistel
  import opened KeySchedule
  import opened Round
  import opened Slices

  /** The ICE round function as the Feistel structure takes it. */
  const RoundF: (bv32, Subkey) -> bv32 := (p: bv32, sk: Subkey) => F(p, sk)

  /** The halves of a block: `u32::from_be_bytes` on bytes 0..4 and 4..8. */
  function ReadHalves(b: seq<byte>): Halves
    requires |b| == 8
  {
    Halves(Load(b[..4]), Load(b[4..]))
  }

  /** The bytes of a block: `to_be_bytes` of the first half, then of the second. */
  function WriteHalves(h: Halves): (b: seq<byte>)
    ensures |b| == 8
  {
    Store(h.l) + Store(h.r)
  }

  /** Writing then reading a block gives back its halves ... */
  lemma ReadWrite(h: Halves)
    ensures ReadHalves(WriteHalves(h)) == h
  {
    var b := WriteHalves(h);
    assert b[..4] == Store(h.l) && b[4..] == Store(h.r);
    LoadStore(h.l);
    LoadStore(h.r);
  }

  /** ... and reading then writing gives back its bytes. */
  lemma WriteRead(b: seq<byte>)
    requires |b| == 8
    ensures WriteHalves(ReadHalves(b)) == b
  {
    StoreLoad(b[..4]);
    StoreLoad(b[4..]);
    assert b == b[..4] + b[4..];
  }

  /** One block through the cipher, either way. */
  function CryptBlock(ks: seq<Subkey>, b: seq<byte>, decrypt: bool): (c: seq<byte>)
    requires |b| == 8
    ensures |c| == 8
  {
    var h := ReadHalves(b);
    WriteHalves(if decrypt then Decrypt(RoundF, ks, h) else Encrypt(RoundF, ks, h))
  }

  /** Decrypting an encrypted block gives it back, and the other way round, for any schedule of even length. */
  lemma CryptBlockRoundTrip(ks: seq<Subkey>, b: seq<byte>, decrypt: bool)
    requires |b| == 8 && |ks| % 2 == 0
    ensures CryptBlock(ks, CryptBlock(ks, b, decrypt), !decrypt) == b
  {
    var h := ReadHalves(b);
    var c := if decrypt then Decrypt(RoundF, ks, h) else Encrypt(RoundF, ks, h);
    ReadWrite(c);
    if decrypt {
      EncryptDecrypt(RoundF, ks, h);
    } else {
      DecryptEncrypt(RoundF, ks, h);
    }
    WriteRead(b);
  }

  // ---- Buffers of whole blocks ----

  /** A buffer of whole blocks, each block through the cipher on its own (ECB). */
  function Transform(ks: seq<Subkey>, data: seq<byte>, decrypt: bool): (out: seq<byte>)
    requires |data| % 8 == 0
    ensures |out| == |data|
    decreases |data|, 1
  {
    if |data| == 0 then [] else FirstThenRest(ks, data, decrypt)
  }

  /**
    * A non-empty buffer: its first block through the cipher, then the rest
    * of the buffer. Kept apart from Transform so that each unfolding of the
    * recursion reaches the cipher only one step later.
    */
  function FirstThenRest(ks: seq<Subkey>, data: seq<byte>, decrypt: bool): (out: seq<byte>)
    requires |data| % 8 == 0 && |data| > 0
    ensures |out| == |data|
    decreases |data|, 0
  {
    CryptBlock(ks, data[..8], decrypt) + Transform(ks, data[8..], decrypt)
  }

  /** b blocks are a whole number of blocks. */
  lemma {:induction false} WholeBlocks(b: nat)
    ensures (8 * b) % 8 == 0
  {
    if b > 0 {
      WholeBlocks(b - 1);
      assert 8 * b == 8 * (b - 1) + 8;
    }
  }

  /** Between two block boundaries lies a whole number of blocks. */
  lemma AlignedDiff(lo: nat, hi: nat)
    requires lo <= hi && lo % 8 == 0 && hi % 8 == 0
    ensures (hi - lo) % 8 == 0
  {
    assert hi - lo == 8 * (hi / 8 - lo / 8);
    WholeBlocks(hi / 8 - lo / 8);
  }

  /** A buffer of one block is transformed as the block itself. */
  lemma {:induction false} TransformOne(ks: seq<Subkey>, b: seq<byte>, decrypt: bool)
    requires |b| == 8
    ensures Transform(ks, b, decrypt) == CryptBlock(ks, b, decrypt)
  {
    Whole(b);
    EmptyRight(CryptBlock(ks, b, decrypt), Transform(ks, b[8..], decrypt));
  }

  /** Block i of the output is block i of the input through the cipher: no block depends on another. */
  lemma {:induction false} TransformAt(ks: seq<Subkey>, data: seq<byte>, decrypt: bool, i: nat)
    requires |data| % 8 == 0 && 8 * i + 8 <= |data|
    ensures Transform(ks, data, decrypt)[8 * i..8 * i + 8] == CryptBlock(ks, data[8 * i..8 * i + 8], decrypt)
  {
    var a, b, c := data[..8 * i], data[8 * i..8 * i + 8], data[8 * i + 8..];
    WholeBlocks(i);
    Split3(data, 8 * i, 8 * i + 8);
    TransformAppend(ks, a + b, c, decrypt);
    TransformAppend(ks, a, b, decrypt);
    TransformOne(ks, b, decrypt);
    Middle(Transform(ks, a, decrypt), CryptBlock(ks, b, decrypt), Transform(ks, c, decrypt));
  }

  /** Transforming two buffers one after the other is transforming their concatenation. */
  lemma {:induction false} TransformAppend(ks: seq<Subkey>, a: seq<byte>, b: seq<byte>, decrypt: bool)
    requires |a| % 8 == 0 && |b| % 8 == 0
    ensures Transform(ks, a + b, decrypt) == Transform(ks, a, decrypt) + Transform(ks, b, decrypt)
    decreases |a|
  {
    if |a| == 0 {
      EmptyLeft(a, b);
      EmptyLeft(Transform(ks, a, decrypt), Transform(ks, b, decrypt));
    } else {
      CutLeft(a, b, 8);
      TransformAppend(ks, a[8..], b, decrypt);
      Assoc(CryptBlock(ks, a[..8], decrypt), Transform(ks, a[8..], decrypt), Transform(ks, b, decrypt));
    }
  }

  /** Decrypting an encrypted buffer gives it back, and the other way round. */
  lemma {:induction false} TransformRoundTrip(ks: seq<Subkey>, data: seq<byte>, decrypt: bool)
    requires |data| % 8 == 0 && |ks| % 2 == 0
    ensures Transform(ks, Transform(ks, data, decrypt), !decrypt) == data
    decreases |data|
  {
    if |data| > 0 {
      var head, rest := CryptBlock(ks, data[..8], decrypt), Transform(ks, data[8..], decrypt);
      HeadTail(head, rest);
      CryptBlockRoundTrip(ks, data[..8], decrypt);
      TransformRoundTrip(ks, data[8..], decrypt);
      TakeDrop(data, 8);
    }
  }

  /** Two buffers of whole blocks that agree block by block are equal. */
  lemma BlocksEqual(x: seq<byte>, y: seq<byte>, n: nat)
    requires |x| == |y| == 8 * n
    requires forall i :: 0 <= i < n ==> x[8 * i..8 * i + 8] == y[8 * i..8 * i + 8]
    ensures x == y
  {
    forall k | 0 <= k < |x|
      ensures x[k] == y[k]
    {
      var i := k / 8;
      assert x[8 * i..8 * i + 8][k - 8 * i] == y[8 * i..8 * i + 8][k - 8 * i];
    }
  }
}
