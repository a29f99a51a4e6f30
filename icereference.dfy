/**
  * The reference ICE port: one block at a time, with the round function
  * written as the original C code writes it. It shares the S-boxes, the key
  * schedule and the Feistel structure with the batched engine, and is proved
  * to compute the same cipher.
  */
module IceReference {

  import opened Words
  import opened Feistel
  import opened KeySchedule
  import opened SBoxes
  import opened Round
  import opened Blocks
  import IceFast

  /**
    * What ice_f needs of a subkey to stay inside the S-boxes: its first two
    * words below 2^20, so that the unmasked `al >> 10` and `ar >> 10` are
    * indices. The third word, the salt, may hold anything.
    */
  predicate Indexable(sk: Subkey) {
    sk[0] < 0x100000 && sk[1] < 0x100000
  }

  /** Exactly the subkeys for which the salted halves are 20-bit fields are indexable. */
  lemma IndexableIffNarrow(p: bv32, sk: Subkey)
    ensures Indexable(sk) <==> Salt(p, sk).al < 0x100000 && Salt(p, sk).ar < 0x100000
  {
    SaltWidth(p, sk);
  }

  /** A subkey built by the key schedule is indexable. */
  lemma FitsIndexable(sk: Subkey)
    requires Fits(sk)
    ensures Indexable(sk)
  {
  }

  class Ice {

    const size: nat
    const rounds: nat
    const keysched: array<Subkey>
    const sbox: array2<bv32>

    /** The shape new gives, a schedule of `rounds` subkeys, and S-boxes filled by sboxes_init. */
    ghost predicate Valid()
      reads this, sbox
    {
      Shape(size, rounds) && keysched.Length == rounds && Filled(sbox)
    }

    /** Every subkey of the schedule can be looked up without leaving the S-boxes. */
    ghost predicate Usable()
      reads this, keysched
    {
      forall s :: 0 <= s < keysched.Length ==> Indexable(keysched[s])
    }

    /**
      * Ice::new(level): builds the S-boxes and allocates a schedule of
      * `rounds` zero subkeys; level 0 is Thin-ICE. No key is set, and the
      * zero schedule can already be used.
      */
    constructor (level: nat)
      ensures size == IceFast.LevelSize(level) && rounds == IceFast.LevelRounds(level)
      ensures Valid() && fresh(keysched) && fresh(sbox)
      ensures forall s :: 0 <= s < rounds ==> keysched[s] == [0, 0, 0]
      ensures Usable()
    {
      IceFast.LevelShape(level);
      var s := new bv32[4, 1024];
      Init(s);
      sbox := s;
      if level < 1 {
        size := 1;
        rounds := 8;
      } else {
        size := level;
        rounds := level * 16;
      }
      keysched := new Subkey[if level < 1 then 8 else level * 16](_ => [0, 0, 0]);
    }

    /** key_size: the number of key bytes key_set reads, eight per level. */
    function KeySize(): (n: nat)
      reads this
      ensures n == 8 * size
    {
      size * 8
    }

    /**
      * key_set: the reference tests only `rounds == 8` for Thin-ICE; for the
      * shapes new produces that is the same branch the batched engine takes.
      */
    method KeySet(key: seq<byte>)
      requires Valid() && KeySize() <= |key|
      modifies keysched
      ensures Valid() && keysched[..] == Schedule(key, size, rounds)
      ensures Usable()
    {
      ThinTestsAgree(size, rounds);
      SetKey(keysched, key, size, rounds, rounds == 8);
      ScheduleFits(key, size, rounds);
      forall s | 0 <= s < rounds
        ensures Indexable(keysched[s])
      {
        FitsIndexable(keysched[s]);
      }
    }

    /**
      * ice_f as the reference writes it: the left expansion rotates with two
      * shifts, and the high indices are taken without a mask. For an
      * indexable subkey it is the round function of the batched engine.
      */
    function RefF(p: bv32, sk: Subkey): (v: bv32)
      reads this, sbox
      requires Valid() && Indexable(sk)
      ensures v == F(p, sk)
    {
      var tl := ExpandLeftShifts(p);
      var tr := ExpandRight(p);
      var s := SaltWith(tl, tr, sk[0], sk[1], sk[2]);
      ReferenceAgrees(p, sk, tl, tr, s);
      var v := Or(Or(Or(sbox[0, High(s.al)], sbox[1, Lo(s.al)]), sbox[2, High(s.ar)]), sbox[3, Lo(s.ar)]);
      IceFast.LookupF(sbox, p, sk, v);
      v
    }

    /** The rounds loop of encrypt: `step_by(2)` over the schedule, two rounds a turn. */
    method EncryptRounds(l0: bv32, r0: bv32) returns (l: bv32, r: bv32)
      requires Valid() && Usable()
      ensures Halves(l, r) == Forward(RoundF, keysched[..], Halves(l0, r0), Pairs(keysched[..]))
    {
      ghost var ks := keysched[..];
      ghost var h0 := Halves(l0, r0);
      ghost var n := Pairs(ks);
      EvenPairs(size, rounds, ks);
      l, r := l0, r0;
      var i := 0;
      ghost var q := 0;
      while i < rounds
        invariant i == q + q && q <= n
        invariant Halves(l, r) == Forward(RoundF, ks, h0, q)
      {
        l, r := EncryptTurn(ks, h0, l, r, i, q);
        i := i + 2;
        q := q + 1;
      }
      assert q == Pairs(ks);
    }

    /** The rounds loop of decrypt: from the last subkey down, two rounds a turn. */
    method DecryptRounds(l0: bv32, r0: bv32) returns (l: bv32, r: bv32)
      requires Valid() && Usable()
      ensures Halves(l, r) == Backward(RoundF, keysched[..], Halves(l0, r0), Pairs(keysched[..]))
    {
      ghost var ks := keysched[..];
      ghost var h0 := Halves(l0, r0);
      ghost var n := Pairs(ks);
      EvenPairs(size, rounds, ks);
      l, r := l0, r0;
      var i: int := rounds - 1;
      ghost var q := 0;
      while i >= 0
        invariant i + 1 == rounds - (q + q) && q <= n
        invariant Halves(l, r) == Backward(RoundF, ks, h0, q)
      {
        l, r := DecryptTurn(ks, h0, l, r, i, q);
        i := i - 2;
        q := q + 1;
      }
      assert q == Pairs(ks);
    }

    /** One turn of encrypt's loop: `l ^= ice_f(r, keysched[i])`, then `r ^= ice_f(l, keysched[i + 1])`, with i = 2q. */
    method EncryptTurn(ghost ks: seq<Subkey>, ghost h0: Halves, l0: bv32, r0: bv32, i: nat, ghost q: nat) returns (l: bv32, r: bv32)
      requires Valid() && Usable() && ks == keysched[..]
      requires i == q + q && q < Pairs(ks) && Halves(l0, r0) == Forward(RoundF, ks, h0, q)
      ensures Halves(l, r) == Forward(RoundF, ks, h0, q + 1)
    {
      PairInside(ks, q);
      l := Xor(l0, RefF(r0, keysched[i]));
      r := Xor(r0, RefF(l, keysched[i + 1]));
      ForwardStep(RoundF, ks, h0, q, i, Halves(l0, r0), Halves(l, r));
    }

    /** One turn of decrypt's loop: `l ^= ice_f(r, keysched[i])`, then `r ^= ice_f(l, keysched[i - 1])`, with i the last subkey not yet used. */
    method DecryptTurn(ghost ks: seq<Subkey>, ghost h0: Halves, l0: bv32, r0: bv32, i: nat, ghost q: nat) returns (l: bv32, r: bv32)
      requires Valid() && Usable() && ks == keysched[..]
      requires q < Pairs(ks) && i + 1 == |ks| - (q + q) && Halves(l0, r0) == Backward(RoundF, ks, h0, q)
      ensures Halves(l, r) == Backward(RoundF, ks, h0, q + 1)
    {
      PairInside(ks, q);
      l := Xor(l0, RefF(r0, keysched[i]));
      r := Xor(r0, RefF(l, keysched[i - 1]));
      BackwardStep(RoundF, ks, h0, q, i, Halves(l0, r0), Halves(l, r));
    }

    /** encrypt: load the halves big-endian, run the rounds, write r then l. */
    method EncryptBlock(ptext: seq<byte>) returns (ctext: seq<byte>)
      requires Valid() && Usable() && |ptext| == 8
      ensures ctext == CryptBlock(keysched[..], ptext, false)
    {
      var l := Load(ptext[..4]);
      var r := Load(ptext[4..]);
      assert Halves(l, r) == ReadHalves(ptext);
      l, r := EncryptRounds(l, r);
      Emitted(keysched[..], ptext, Halves(l, r), false);
      var out := new byte[8];
      WriteOut(l, r, out);
      ctext := out[..];
    }

    /** decrypt: the same, with the rounds run backwards. */
    method DecryptBlock(ctext: seq<byte>) returns (ptext: seq<byte>)
      requires Valid() && Usable() && |ctext| == 8
      ensures ptext == CryptBlock(keysched[..], ctext, true)
    {
      var l := Load(ctext[..4]);
      var r := Load(ctext[4..]);
      assert Halves(l, r) == ReadHalves(ctext);
      l, r := DecryptRounds(l, r);
      Emitted(keysched[..], ctext, Halves(l, r), true);
      var out := new byte[8];
      WriteOut(l, r, out);
      ptext := out[..];
    }
  }

  /** `al as usize >> 10`: the high ten bits of a field, without the mask the batched engine applies. */
  function High(x: bv32): nat {
    (x >> 10) as nat
  }

  /** The reference's expansions and salt are those of the round function, and its unmasked indices are its indices. */
  lemma ReferenceAgrees(p: bv32, sk: Subkey, tl: bv32, tr: bv32, s: Salted)
    requires Indexable(sk) && tl == ExpandLeftShifts(p) && tr == ExpandRight(p)
    requires s == SaltWith(tl, tr, sk[0], sk[1], sk[2])
    ensures s == Salt(p, sk)
    ensures High(s.al) < 1024 && High(s.al) == Hi(s.al)
    ensures High(s.ar) < 1024 && High(s.ar) == Hi(s.ar)
  {
    ExpandLeftAgree(p);
    SaltWidth(p, sk);
    Narrow(s.al);
    Narrow(s.ar);
  }

  /** A 20-bit field gives the same high index with or without the mask. */
  lemma Narrow(x: bv32)
    requires x < 0x100000
    ensures High(x) < 1024 && High(x) == Hi(x)
  {
    HiUnmasked(x);
  }

  /** The shapes new produces have an even number of rounds: the schedule splits into pairs. */
  lemma EvenPairs(size: nat, rounds: nat, ks: seq<Subkey>)
    requires Shape(size, rounds) && |ks| == rounds
    ensures rounds == Pairs(ks) + Pairs(ks)
  {
  }

  /** Pair q of a schedule, counted from either end, lies inside it. */
  lemma PairInside<K>(ks: seq<K>, q: nat)
    requires q < Pairs(ks)
    ensures q + q + 2 <= |ks|
  {
  }

  /** One turn of encrypt's `step_by(2)` loop, subkeys i and i + 1 with i = 2q, is round q + 1 of encryption. */
  lemma ForwardStep<K>(f: (bv32, K) -> bv32, ks: seq<K>, h0: Halves, q: nat, i: nat, before: Halves, after: Halves)
    requires q < Pairs(ks) && i == 2 * q && before == Forward(f, ks, h0, q)
    requires after.l == Xor(before.l, f(before.r, ks[i]))
    requires after.r == Xor(before.r, f(after.l, ks[i + 1]))
    ensures after == Forward(f, ks, h0, q + 1)
  {
  }

  /** One turn of decrypt's loop, subkeys i then i - 1 with i = rounds - 1 - 2q, is round q + 1 of decryption. */
  lemma BackwardStep<K>(f: (bv32, K) -> bv32, ks: seq<K>, h0: Halves, q: nat, i: nat, before: Halves, after: Halves)
    requires q < Pairs(ks) && 1 <= i && i + 1 == |ks| - (q + q) && before == Backward(f, ks, h0, q)
    requires after.l == Xor(before.l, f(before.r, ks[i]))
    requires after.r == Xor(before.r, f(after.l, ks[i - 1]))
    ensures after == Backward(f, ks, h0, q + 1)
  {
    assert i - 1 == |ks| - 2 * (q + 1);
  }

  /** `(w & 0xff) as u8`: the low byte of a word. */
  function LowByte(w: bv32): byte {
    (w & 0xff) as byte
  }

  /** `w >> 8`. */
  function Shr8(w: bv32): bv32 {
    w >> 8
  }

  /** w shifted down a byte t times, as the output loop leaves l and r after t turns. */
  function Down(w: bv32, t: nat): bv32 {
    if t == 0 then w else Shr8(Down(w, t - 1))
  }

  /** The big-endian bytes of a word are the low bytes of its shifts, the most shifted first. */
  lemma StoreShr(w: bv32)
    ensures Store(w) == [LowByte(Shr8(Shr8(Shr8(w)))), LowByte(Shr8(Shr8(w))), LowByte(Shr8(w)), LowByte(w)]
  {
  }

  lemma DownBytes(w: bv32)
    ensures Store(w) == [LowByte(Down(w, 3)), LowByte(Down(w, 2)), LowByte(Down(w, 1)), LowByte(Down(w, 0))]
  {
    assert Down(w, 1) == Shr8(w);
    assert Down(w, 2) == Shr8(Down(w, 1));
    assert Down(w, 3) == Shr8(Down(w, 2));
    StoreShr(w);
  }

  /** After i turns of the output loop, bytes 3 - i + 1 .. 3 hold the low bytes of r and bytes 7 - i + 1 .. 7 those of l. */
  ghost predicate WrittenSoFar(out: seq<byte>, l0: bv32, r0: bv32, i: nat) {
    |out| == 8 && i <= 4 &&
    (forall k :: 3 - i < k < 4 ==> out[k] == LowByte(Down(r0, 3 - k))) &&
    (forall k :: 7 - i < k < 8 ==> out[k] == LowByte(Down(l0, 7 - k)))
  }

  lemma WrittenStep(before: seq<byte>, after: seq<byte>, l0: bv32, r0: bv32, i: nat)
    requires i < 4 && WrittenSoFar(before, l0, r0, i)
    requires after == before[3 - i := LowByte(Down(r0, i))][7 - i := LowByte(Down(l0, i))]
    ensures WrittenSoFar(after, l0, r0, i + 1)
  {
    forall k | 3 - (i + 1) < k < 4
      ensures after[k] == LowByte(Down(r0, 3 - k))
    {
      if k > 3 - i {
        assert after[k] == before[k];
      }
    }
    forall k | 7 - (i + 1) < k < 8
      ensures after[k] == LowByte(Down(l0, 7 - k))
    {
      if k > 7 - i {
        assert after[k] == before[k];
      }
    }
  }

  /** After four turns the block holds r's bytes, then l's. */
  lemma WrittenAll(out: seq<byte>, l0: bv32, r0: bv32)
    requires WrittenSoFar(out, l0, r0, 4)
    ensures out == WriteHalves(Swap(Halves(l0, r0)))
  {
    DownBytes(r0);
    DownBytes(l0);
  }

  /**
    * The output loop of encrypt and decrypt: byte 3 - i takes the low byte
    * of r and byte 7 - i that of l, both shifted down by 8 each turn; the
    * block written is the final halves swapped.
    */
  method WriteOut(l0: bv32, r0: bv32, out: array<byte>)
    requires out.Length == 8
    modifies out
    ensures out[..] == WriteHalves(Swap(Halves(l0, r0)))
  {
    var l, r := l0, r0;
    var i := 0;
    while i < 4
      invariant i <= 4 && l == Down(l0, i) && r == Down(r0, i)
      invariant WrittenSoFar(out[..], l0, r0, i)
    {
      ghost var before := out[..];
      out[3 - i] := LowByte(r);
      out[7 - i] := LowByte(l);
      WrittenStep(before, out[..], l0, r0, i);
      r := Shr8(r);
      l := Shr8(l);
      i := i + 1;
    }
    WrittenAll(out[..], l0, r0);
  }

  /** The final halves of the rounds, swapped and written out, are the block through the cipher. */
  lemma Emitted(ks: seq<Subkey>, b: seq<byte>, h: Halves, decrypt: bool)
    requires |b| == 8
    requires h == (if decrypt then Backward(RoundF, ks, ReadHalves(b), Pairs(ks)) else Forward(RoundF, ks, ReadHalves(b), Pairs(ks)))
    ensures WriteHalves(Swap(h)) == CryptBlock(ks, b, decrypt)
  {
  }

  /** Decrypting what encrypt wrote gives the plaintext back, and the other way round. */
  lemma BlockRoundTrip(ks: seq<Subkey>, b: seq<byte>, decrypt: bool)
    requires |b| == 8 && |ks| % 2 == 0
    ensures CryptBlock(ks, CryptBlock(ks, b, decrypt), !decrypt) == b
  {
    CryptBlockRoundTrip(ks, b, decrypt);
  }

  /** key_set reads the first key_size bytes of the key and no more. */
  lemma ScheduleKeyBytes(key: seq<byte>, key2: seq<byte>, size: nat, rounds: nat)
    requires Shape(size, rounds) && 8 * size <= |key| && 8 * size <= |key2|
    requires key[..8 * size] == key2[..8 * size]
    ensures Schedule(key, size, rounds) == Schedule(key2, size, rounds)
  {
    FullScheduleKeyBytes(key, key2, size);
    if size == 1 && rounds == 8 {
      assert KeyRegs(key, 0) == KeyRegs(key2, 0) by {
        forall b | 0 <= b < 8
          ensures key[b] == key2[b]
        {
          assert key[..8][b] == key2[..8][b];
        }
      }
    }
  }
}
