/**
  * The batched ICE engine. An `Ice` holds the key's size and round count,
  * the key schedule and the four S-boxes; `process_batch` encrypts or
  * decrypts B blocks side by side, lane i of every round-function call
  * belonging to block i; `dispatch` covers a whole buffer with batches of 8
  * blocks and then single blocks; `encrypt`/`decrypt` pick a batch size
  * from the buffer length and the number of worker threads.
  */
module IceFast {

  import opened Words
  import opened Feistel
  import opened KeySchedule
  import opened SBoxes
  import opened Round
  import opened Blocks
  import opened Slices

  /** Ice::new: level 0 is Thin-ICE with one level of key. */
  function LevelSize(level: nat): nat {
    if level < 1 then 1 else level
  }

  /** Ice::new: Thin-ICE has 8 rounds, level L has 16 L. */
  function LevelRounds(level: nat): nat {
    if level < 1 then 8 else 16 * level
  }

  /**
    * Every level gives a valid shape with an even number of rounds, so
    * `chunks_exact(2)` and `rchunks_exact(2)` leave no subkey unused; only
    * level 0 is thin.
    */
  lemma LevelShape(level: nat)
    ensures Shape(LevelSize(level), LevelRounds(level))
    ensures LevelRounds(level) % 2 == 0 && 8 <= LevelRounds(level)
    ensures (LevelSize(level) == 1 && LevelRounds(level) == 8) == (level == 0)
  {
  }

  // ---- Lanes ----

  /** `for i in 0..B { l[i] ^= f[i]; }`: lane i of the result is lane i of x xor lane i of f. */
  method XorLanes(x: seq<bv32>, f: seq<bv32>) returns (y: seq<bv32>)
    requires |x| == |f|
    ensures |y| == |x| && forall i :: 0 <= i < |x| ==> y[i] == Xor(x[i], f[i])
  {
    y := [];
    var i := 0;
    while i < |x|
      invariant i <= |x| && |y| == i
      invariant forall j :: 0 <= j < i ==> y[j] == Xor(x[j], f[j])
    {
      y := y + [Xor(x[i], f[i])];
      i := i + 1;
    }
  }

  /** The four S-box words of a lane, or-ed together, are the round function of that lane. */
  lemma LookupF(sbox: array2<bv32>, p: bv32, sk: Subkey, v: bv32)
    requires Filled(sbox)
    requires var s := Salt(p, sk);
      v == Or(Or(Or(sbox[0, Hi(s.al)], sbox[1, Lo(s.al)]), sbox[2, Hi(s.ar)]), sbox[3, Lo(s.ar)])
    ensures v == F(p, sk)
  {
    var s := Salt(p, sk);
    FilledAt(sbox, 0, Hi(s.al));
    FilledAt(sbox, 1, Lo(s.al));
    FilledAt(sbox, 2, Hi(s.ar));
    FilledAt(sbox, 3, Lo(s.ar));
  }

  lemma FilledAt(sbox: array2<bv32>, t: Table, i: Index)
    requires Filled(sbox)
    ensures sbox[t, i] == Entry(t, i)
  {
  }

  /** Appending the image of the next lane extends a lane-by-lane map by one lane. */
  lemma MapStep<A, B>(f: A -> B, p: seq<A>, res: seq<B>, v: B)
    requires |res| < |p| && v == f(p[|res|])
    requires forall j :: 0 <= j < |res| ==> res[j] == f(p[j])
    ensures forall j :: 0 <= j < |res| + 1 ==> (res + [v])[j] == f(p[j])
  {
  }

  /** Block i of a chunk, as halves. */
  function LaneInput(chunk: seq<byte>, i: nat): Halves
    requires 8 * i + 8 <= |chunk|
  {
    ReadHalves(chunk[8 * i..8 * i + 8])
  }

  /** What the rounds do to one block's halves before the final swap. */
  function Rounds(ks: seq<Subkey>, h: Halves, decrypt: bool): Halves {
    if decrypt then Backward(RoundF, ks, h, Pairs(ks)) else Forward(RoundF, ks, h, Pairs(ks))
  }

  /** The 8 bytes process_batch writes for one lane: `r` then `l`, big-endian. */
  function Lane(l: bv32, r: bv32): (out: seq<byte>)
    ensures |out| == 8
  {
    Store(r) + Store(l)
  }

  /** The bytes process_batch writes for all lanes, lane after lane. */
  function Emit(l: seq<bv32>, r: seq<bv32>): (out: seq<byte>)
    requires |l| == |r|
    ensures |out| == 8 * |l|
  {
    if |l| == 0 then [] else Emit(l[..|l| - 1], r[..|r| - 1]) + Lane(l[|l| - 1], r[|r| - 1])
  }

  /** Both half-rounds on one lane are a full round on that lane, for any round function. */
  lemma LaneRound<K>(f: (bv32, K) -> bv32, l0: bv32, r0: bv32, fr: bv32, l1: bv32, fl: bv32, r1: bv32, a: K, b: K)
    requires fr == f(r0, a) && l1 == Xor(l0, fr) && fl == f(l1, b) && r1 == Xor(r0, fl)
    ensures Halves(l1, r1) == Feistel.Round(f, Halves(l0, r0), a, b)
  {
  }

  /** Both half-rounds on every lane are a full round on every lane. */
  lemma LanesRound(l0: seq<bv32>, r0: seq<bv32>, fr: seq<bv32>, l1: seq<bv32>, fl: seq<bv32>, r1: seq<bv32>, a: Subkey, b: Subkey)
    requires |l0| == |r0| == |fr| == |l1| == |fl| == |r1|
    requires forall i :: 0 <= i < |r0| ==> fr[i] == F(r0[i], a)
    requires forall i :: 0 <= i < |l0| ==> l1[i] == Xor(l0[i], fr[i])
    requires forall i :: 0 <= i < |l1| ==> fl[i] == F(l1[i], b)
    requires forall i :: 0 <= i < |r0| ==> r1[i] == Xor(r0[i], fl[i])
    ensures forall i :: 0 <= i < |l0| ==> Halves(l1[i], r1[i]) == Feistel.Round(RoundF, Halves(l0[i], r0[i]), a, b)
  {
    forall i | 0 <= i < |l0|
      ensures Halves(l1[i], r1[i]) == Feistel.Round(RoundF, Halves(l0[i], r0[i]), a, b)
    {
      LaneRound(RoundF, l0[i], r0[i], fr[i], l1[i], fl[i], r1[i], a, b);
    }
  }

  /** One more pair of subkeys on every lane extends the forward rounds by one. */
  lemma ForwardLanes<K>(f: (bv32, K) -> bv32, ks: seq<K>, l0: seq<bv32>, r0: seq<bv32>, lb: seq<bv32>, rb: seq<bv32>, l: seq<bv32>, r: seq<bv32>, q: nat, j: nat, a: K, b: K)
    requires q < Pairs(ks) && j == 2 * q && a == ks[j] && b == ks[j + 1] && |l0| == |r0| == |lb| == |rb| == |l| == |r|
    requires forall i {:trigger Forward(f, ks, Halves(l0[i], r0[i]), q)} :: 0 <= i < |l0| ==>
      Halves(lb[i], rb[i]) == Forward(f, ks, Halves(l0[i], r0[i]), q)
    requires forall i {:trigger Feistel.Round(f, Halves(lb[i], rb[i]), a, b)} :: 0 <= i < |l0| ==>
      Halves(l[i], r[i]) == Feistel.Round(f, Halves(lb[i], rb[i]), a, b)
    ensures forall i {:trigger Forward(f, ks, Halves(l0[i], r0[i]), q + 1)} :: 0 <= i < |l0| ==>
      Halves(l[i], r[i]) == Forward(f, ks, Halves(l0[i], r0[i]), q + 1)
  {
    forall i | 0 <= i < |l0|
      ensures Halves(l[i], r[i]) == Forward(f, ks, Halves(l0[i], r0[i]), q + 1)
    {
      assert Halves(lb[i], rb[i]) == Forward(f, ks, Halves(l0[i], r0[i]), q);
      assert Halves(l[i], r[i]) == Feistel.Round(f, Halves(lb[i], rb[i]), a, b);
    }
  }

  /** One more pair of subkeys from the end on every lane extends the backward rounds by one. */
  lemma BackwardLanes<K>(f: (bv32, K) -> bv32, ks: seq<K>, l0: seq<bv32>, r0: seq<bv32>, lb: seq<bv32>, rb: seq<bv32>, l: seq<bv32>, r: seq<bv32>, q: nat, j: nat, a: K, b: K)
    requires q < Pairs(ks) && j == |ks| - 2 * (q + 1) && a == ks[j + 1] && b == ks[j] && |l0| == |r0| == |lb| == |rb| == |l| == |r|
    requires forall i {:trigger Backward(f, ks, Halves(l0[i], r0[i]), q)} :: 0 <= i < |l0| ==>
      Halves(lb[i], rb[i]) == Backward(f, ks, Halves(l0[i], r0[i]), q)
    requires forall i {:trigger Feistel.Round(f, Halves(lb[i], rb[i]), a, b)} :: 0 <= i < |l0| ==>
      Halves(l[i], r[i]) == Feistel.Round(f, Halves(lb[i], rb[i]), a, b)
    ensures forall i {:trigger Backward(f, ks, Halves(l0[i], r0[i]), q + 1)} :: 0 <= i < |l0| ==>
      Halves(l[i], r[i]) == Backward(f, ks, Halves(l0[i], r0[i]), q + 1)
  {
    forall i | 0 <= i < |l0|
      ensures Halves(l[i], r[i]) == Backward(f, ks, Halves(l0[i], r0[i]), q + 1)
    {
      assert Halves(lb[i], rb[i]) == Backward(f, ks, Halves(l0[i], r0[i]), q);
      assert Halves(l[i], r[i]) == Feistel.Round(f, Halves(lb[i], rb[i]), a, b);
    }
  }

  /** Every lane of l, r is its lane of l0, r0 after the first q forward rounds. */
  ghost predicate ForwardSoFar(ks: seq<Subkey>, l0: seq<bv32>, r0: seq<bv32>, l: seq<bv32>, r: seq<bv32>, q: nat) {
    |l0| == |r0| == |l| == |r| && q <= Pairs(ks) &&
    forall i {:trigger Forward(RoundF, ks, Halves(l0[i], r0[i]), q)} :: 0 <= i < |l0| ==>
      Halves(l[i], r[i]) == Forward(RoundF, ks, Halves(l0[i], r0[i]), q)
  }

  /** Every lane of l, r is its lane of l0, r0 after the first q backward rounds. */
  ghost predicate BackwardSoFar(ks: seq<Subkey>, l0: seq<bv32>, r0: seq<bv32>, l: seq<bv32>, r: seq<bv32>, q: nat) {
    |l0| == |r0| == |l| == |r| && q <= Pairs(ks) &&
    forall i {:trigger Backward(RoundF, ks, Halves(l0[i], r0[i]), q)} :: 0 <= i < |l0| ==>
      Halves(l[i], r[i]) == Backward(RoundF, ks, Halves(l0[i], r0[i]), q)
  }

  /** One block's rounds and its output: the block through the cipher. */
  lemma EmitBlock(ks: seq<Subkey>, b: seq<byte>, l: bv32, r: bv32, decrypt: bool)
    requires |b| == 8 && Halves(l, r) == Rounds(ks, ReadHalves(b), decrypt)
    ensures Lane(l, r) == CryptBlock(ks, b, decrypt)
  {
  }

  /** Block i of the emitted bytes is lane i written out. */
  lemma {:induction false} EmitAt(l: seq<bv32>, r: seq<bv32>, i: nat)
    requires |l| == |r| && i < |l|
    ensures Emit(l, r)[8 * i..8 * i + 8] == Lane(l[i], r[i])
    decreases |l|
  {
    var n := |l| - 1;
    var init, last := Emit(l[..n], r[..n]), Lane(l[n], r[n]);
    if i == n {
      SliceRight(init, last, 8 * n, 8 * n + 8);
      Whole(last);
    } else {
      EmitAt(l[..n], r[..n], i);
      SliceLeft(init, last, 8 * i, 8 * i + 8);
    }
  }

  /** Lanes that each emit their block through the cipher emit the transform of the whole chunk. */
  lemma {:induction false} EmitTransform(ks: seq<Subkey>, chunk: seq<byte>, l: seq<bv32>, r: seq<bv32>, decrypt: bool)
    requires |l| == |r| && |chunk| == 8 * |l|
    requires forall i {:trigger Lane(l[i], r[i])} :: 0 <= i < |l| ==> Lane(l[i], r[i]) == CryptBlock(ks, chunk[8 * i..8 * i + 8], decrypt)
    ensures Emit(l, r) == Transform(ks, chunk, decrypt)
  {
    var n := |l|;
    WholeBlocks(n);
    forall i | 0 <= i < n
      ensures Emit(l, r)[8 * i..8 * i + 8] == Transform(ks, chunk, decrypt)[8 * i..8 * i + 8]
    {
      EmitAt(l, r, i);
      TransformAt(ks, chunk, decrypt, i);
    }
    BlocksEqual(Emit(l, r), Transform(ks, chunk, decrypt), n);
  }

  /**
    * Lanes loaded from the blocks of a chunk and put through the rounds emit
    * the transform of the chunk: B lanes side by side are B single blocks.
    */
  lemma {:induction false} LanesOut(ks: seq<Subkey>, chunk: seq<byte>, l0: seq<bv32>, r0: seq<bv32>, l: seq<bv32>, r: seq<bv32>, decrypt: bool)
    requires |l0| == |r0| == |l| == |r| && |chunk| == 8 * |l|
    requires forall i {:trigger LaneInput(chunk, i)} :: 0 <= i < |l| ==> Halves(l0[i], r0[i]) == LaneInput(chunk, i)
    requires forall i {:trigger Rounds(ks, Halves(l0[i], r0[i]), decrypt)} :: 0 <= i < |l| ==>
      Halves(l[i], r[i]) == Rounds(ks, Halves(l0[i], r0[i]), decrypt)
    ensures Emit(l, r) == Transform(ks, chunk, decrypt)
  {
    forall i | 0 <= i < |l|
      ensures Lane(l[i], r[i]) == CryptBlock(ks, chunk[8 * i..8 * i + 8], decrypt)
    {
      assert Halves(l0[i], r0[i]) == LaneInput(chunk, i);
      assert Halves(l[i], r[i]) == Rounds(ks, Halves(l0[i], r0[i]), decrypt);
      EmitBlock(ks, chunk[8 * i..8 * i + 8], l[i], r[i], decrypt);
    }
    EmitTransform(ks, chunk, l, r, decrypt);
  }

  // ---- Buffers cut into chunks ----

  /** How many bytes `chunks_exact(c)` covers in a buffer of `len` bytes: whole chunks only. */
  function ChunksDone(len: nat, c: nat): (m: nat)
    requires c > 0
    ensures m <= len && len - m < c
    ensures c % 8 == 0 ==> m % 8 == 0
    decreases len
  {
    if len < c then 0 else c + ChunksDone(len - c, c)
  }

  /** A buffer of whole chunks is covered completely. */
  lemma {:induction false} ChunksDoneAll(k: nat, c: nat)
    requires c > 0
    ensures ChunksDone(k * c, c) == k * c
    decreases k
  {
    if k > 0 {
      assert k * c - c == (k - 1) * c;
      ChunksDoneAll(k - 1, c);
    }
  }

  /** Appending fewer than c bytes to whole chunks adds no chunk. */
  lemma {:induction false} ChunksDoneTail(len: nat, extra: nat, c: nat)
    requires c > 0 && extra < c && ChunksDone(len, c) == len
    ensures ChunksDone(len + extra, c) == len
    decreases len
  {
    if len >= c {
      ChunksDoneTail(len - c, extra, c);
    }
  }

  /** Whole blocks from `head` to the end are all covered by single-block chunks. */
  /** Whole chunks of b blocks cover whole blocks. */
  lemma ChunksAligned(len: nat, b: nat)
    requires b > 0
    ensures ChunksDone(len, 8 * b) % 8 == 0
  {
    WholeBlocks(b);
  }

  lemma {:induction false} TailCovered(len: nat, head: nat)
    requires head <= len && len % 8 == 0 && head % 8 == 0
    ensures ChunksDone(len - head, 8) == len - head
  {
    AlignedDiff(head, len);
    ChunksDoneAll((len - head) / 8, 8);
  }

  /** Taking one more whole chunk, up to `next`, keeps the count of covered bytes. */
  lemma ChunkAdvance(from: nat, off: nat, next: nat, to: nat, c: nat)
    requires c > 0 && c % 8 == 0 && from <= off && next == off + c <= to && (off - from) % 8 == 0
    requires (off - from) + ChunksDone(to - off, c) == ChunksDone(to - from, c)
    ensures (next - from) % 8 == 0
    ensures (next - from) + ChunksDone(to - next, c) == ChunksDone(to - from, c)
  {
    assert ChunksDone(to - off, c) == c + ChunksDone(to - off - c, c);
  }

  /** Replacing the next chunk, `off..next`, by its transform extends the transformed part of `start[from..]` to `next`. */
  lemma {:induction false} ChunkStep(ks: seq<Subkey>, start: seq<byte>, mid: seq<byte>, now: seq<byte>, from: nat, off: nat, next: nat, decrypt: bool)
    requires from <= off <= next <= |start| && (off - from) % 8 == 0 && (next - off) % 8 == 0
    requires mid == start[..from] + Transform(ks, start[from..off], decrypt) + start[off..]
    requires now == mid[..off] + Transform(ks, mid[off..next], decrypt) + mid[next..]
    ensures now == start[..from] + Transform(ks, start[from..next], decrypt) + start[next..]
  {
    var x := Transform(ks, start[from..off], decrypt);
    var y := Transform(ks, mid[off..next], decrypt);
    Splice(start, mid, now, from, off, next, x, y);
    TransformAppend(ks, start[from..off], start[off..next], decrypt);
    Adjacent(start, from, off, next);
  }

  // ---- encrypt / decrypt as written ----

  /** The serial path: short buffers, or fewer than two worker threads. */
  predicate Serial(len: nat, threads: nat) {
    len < 32768 || threads < 2
  }

  /** The batch size encrypt and decrypt pick: 64, or 32 when each thread would get more than 1 MiB. */
  function BatchFor(len: nat, threads: nat): nat {
    if Serial(len, threads) then 64 else if len / threads > 1048576 then 32 else 64
  }

  /** The batch size is always 32 or 64, and 32 only on the parallel path with more than 1 MiB per thread. */
  lemma BatchForCases(len: nat, threads: nat)
    ensures BatchFor(len, threads) == 32 || BatchFor(len, threads) == 64
    ensures BatchFor(len, threads) == 32 <==> !Serial(len, threads) && len / threads > 1048576
  {
  }

  /**
    * The part of the buffer encrypt and decrypt transform: the one batch of
    * 64 blocks on the serial path, the whole chunks of B blocks on the
    * parallel one.
    */
  function Covered(len: nat, threads: nat): (m: nat)
    requires Serial(len, threads) ==> 512 <= len
    ensures m <= len && m % 8 == 0
  {
    if Serial(len, threads) then 512 else ChunksDone(len, 8 * BatchFor(len, threads))
  }

  /** What encrypt or decrypt does to a buffer: the covered prefix goes through the cipher, the rest is left as it was. */
  function AsWritten(ks: seq<Subkey>, data: seq<byte>, threads: nat, decrypt: bool): (out: seq<byte>)
    requires Serial(|data|, threads) ==> 512 <= |data|
    ensures |out| == |data|
  {
    var m := Covered(|data|, threads);
    Transform(ks, data[..m], decrypt) + data[m..]
  }

  /** Decrypting with the same thread count undoes encrypting, and the other way round. */
  lemma AsWrittenRoundTrip(ks: seq<Subkey>, data: seq<byte>, threads: nat, decrypt: bool)
    requires |ks| % 2 == 0 && (Serial(|data|, threads) ==> 512 <= |data|)
    ensures AsWritten(ks, AsWritten(ks, data, threads, decrypt), threads, !decrypt) == data
  {
    var m := Covered(|data|, threads);
    var head := Transform(ks, data[..m], decrypt);
    HeadTail(head, data[m..]);
    TransformRoundTrip(ks, data[..m], decrypt);
    assert data[..m] + data[m..] == data;
  }

  /**
    * The serial path on a buffer of 1024 bytes leaves its second half as it
    * was: bytes 512 .. 1023 of the "ciphertext" are the plaintext.
    */
  lemma SerialLeavesPlaintext(ks: seq<Subkey>, data: seq<byte>)
    requires |data| == 1024
    ensures AsWritten(ks, data, 1, false)[512..] == data[512..]
  {
    HeadTail(Transform(ks, data[..512], false), data[512..]);
  }

  /**
    * The parallel path on a buffer one block longer than 64 chunks of 512
    * bytes, with two threads, leaves the last block as it was.
    */
  lemma ParallelLeavesLastBlock(ks: seq<Subkey>, data: seq<byte>)
    requires |data| == 32776
    ensures AsWritten(ks, data, 2, false)[32768..] == data[32768..]
  {
    ChunksDoneAll(64, 512);
    ChunksDoneTail(32768, 8, 512);
    assert Covered(32776, 2) == 32768;
    HeadTail(Transform(ks, data[..32768], false), data[32768..]);
  }

  // ---- The engine ----

  class Ice {

    const size: nat
    const rounds: nat
    const keysched: array<Subkey>
    const sbox: array2<bv32>

    /** The shape Ice::new gives, a schedule of `rounds` subkeys, and S-boxes filled by sboxes_init. */
    ghost predicate Valid()
      reads this, sbox
    {
      Shape(size, rounds) && keysched.Length == rounds && Filled(sbox)
    }

    /** Ice::new: builds the S-boxes, allocates `rounds` subkeys and sets the key, whose first 8 * size bytes it reads. */
    constructor (level: nat, key: seq<byte>)
      requires 8 * LevelSize(level) <= |key|
      ensures size == LevelSize(level) && rounds == LevelRounds(level)
      ensures Valid() && fresh(keysched) && fresh(sbox)
      ensures keysched[..] == Schedule(key, size, rounds)
    {
      LevelShape(level);
      size := LevelSize(level);
      rounds := LevelRounds(level);
      var s := new bv32[4, 1024];
      Init(s);
      sbox := s;
      keysched := new Subkey[LevelRounds(level)](_ => [0, 0, 0]);
      new;
      KeySet(key);
    }

    /** key_set: Thin-ICE's branch when size is 1 and there are 8 rounds, else the level loop. */
    method KeySet(key: seq<byte>)
      requires Valid() && 8 * size <= |key|
      modifies keysched
      ensures Valid() && keysched[..] == Schedule(key, size, rounds)
    {
      SetKey(keysched, key, size, rounds, size == 1 && rounds == 8);
    }

    /** ice_f_batch: lane i of the result is the round function of lane i of the input, whatever the other lanes hold. */
    method IceFBatch(p: seq<bv32>, sk: Subkey) returns (res: seq<bv32>)
      requires Valid()
      ensures |res| == |p| && forall i :: 0 <= i < |p| ==> res[i] == F(p[i], sk)
    {
      res := [];
      var i := 0;
      while i < |p|
        invariant i <= |p| && |res| == i
        invariant forall j :: 0 <= j < i ==> res[j] == F(p[j], sk)
      {
        var s := Salt(p[i], sk);
        var v := Or(Or(Or(sbox[0, Hi(s.al)], sbox[1, Lo(s.al)]), sbox[2, Hi(s.ar)]), sbox[3, Lo(s.ar)]);
        LookupF(sbox, p[i], sk, v);
        MapStep(x => F(x, sk), p, res, v);
        res := res + [v];
        i := i + 1;
      }
    }

    /** The first loop of process_batch: lane i reads l and r big-endian from block i of the chunk at `off`. */
    method LoadLanes(data: array<byte>, off: nat, b: nat) returns (l: seq<bv32>, r: seq<bv32>)
      requires off + 8 * b <= data.Length
      ensures |l| == b && |r| == b
      ensures forall i :: 0 <= i < b ==> Halves(l[i], r[i]) == LaneInput(data[off..off + 8 * b], i)
    {
      ghost var chunk := data[off..off + 8 * b];
      l, r := [], [];
      var i := 0;
      while i < b
        invariant i <= b && |l| == i && |r| == i
        invariant forall j :: 0 <= j < i ==> Halves(l[j], r[j]) == LaneInput(chunk, j)
      {
        var o := off + i * 8;
        var hl, hr := Load(data[o..o + 4]), Load(data[o + 4..o + 8]);
        LoadStep(data[..], off, b, i);
        l, r := l + [hl], r + [hr];
        i := i + 1;
      }
    }

    /** One pair of subkeys on every lane: `l ^= F(r, a)` then `r ^= F(l, b)`, a full Feistel round per lane. */
    method RoundLanes(l0: seq<bv32>, r0: seq<bv32>, a: Subkey, b: Subkey) returns (l: seq<bv32>, r: seq<bv32>)
      requires Valid() && |l0| == |r0|
      ensures |l| == |l0| && |r| == |l0|
      ensures forall i {:trigger Feistel.Round(RoundF, Halves(l0[i], r0[i]), a, b)} :: 0 <= i < |l0| ==>
        Halves(l[i], r[i]) == Feistel.Round(RoundF, Halves(l0[i], r0[i]), a, b)
    {
      var fr := IceFBatch(r0, a);
      l := XorLanes(l0, fr);
      var fl := IceFBatch(l, b);
      r := XorLanes(r0, fl);
      LanesRound(l0, r0, fr, l, fl, r, a, b);
    }

    /** The encryption loop of process_batch: subkey pairs in order, `l ^= F(r, pair[0])` then `r ^= F(l, pair[1])` on every lane. */
    method EncryptLanes(l0: seq<bv32>, r0: seq<bv32>) returns (l: seq<bv32>, r: seq<bv32>)
      requires Valid() && |l0| == |r0|
      ensures ForwardSoFar(keysched[..], l0, r0, l, r, Pairs(keysched[..]))
    {
      var ks := keysched[..];
      l, r := l0, r0;
      var q := 0;
      while q < |ks| / 2
        invariant ForwardSoFar(ks, l0, r0, l, r, q)
      {
        l, r := EncryptPair(ks, l0, r0, l, r, q);
        q := q + 1;
      }
      assert q == Pairs(ks);
      assert keysched[..] == ks;
    }

    /**
      * The decryption loop of process_batch: subkey pairs from the end
      * (`rchunks_exact(2)`), `l ^= F(r, pair[1])` then `r ^= F(l, pair[0])`.
      */
    method DecryptLanes(l0: seq<bv32>, r0: seq<bv32>) returns (l: seq<bv32>, r: seq<bv32>)
      requires Valid() && |l0| == |r0|
      ensures BackwardSoFar(keysched[..], l0, r0, l, r, Pairs(keysched[..]))
    {
      var ks := keysched[..];
      l, r := l0, r0;
      var q := 0;
      while q < |ks| / 2
        invariant BackwardSoFar(ks, l0, r0, l, r, q)
      {
        l, r := DecryptPair(ks, l0, r0, l, r, q);
        q := q + 1;
      }
      assert q == Pairs(ks);
      assert keysched[..] == ks;
    }

    /** One turn of the encryption loop: subkey pair q takes every lane from q forward rounds to q + 1. */
    method EncryptPair(ks: seq<Subkey>, l0: seq<bv32>, r0: seq<bv32>, lb: seq<bv32>, rb: seq<bv32>, q: nat) returns (l: seq<bv32>, r: seq<bv32>)
      requires Valid() && |l0| == |r0| && q < Pairs(ks) && ForwardSoFar(ks, l0, r0, lb, rb, q)
      ensures ForwardSoFar(ks, l0, r0, l, r, q + 1)
    {
      var j := 2 * q;
      var a, b := ks[j], ks[j + 1];
      l, r := RoundLanes(lb, rb, a, b);
      ForwardLanes(RoundF, ks, l0, r0, lb, rb, l, r, q, j, a, b);
    }

    /** One turn of the decryption loop: subkey pair q from the end takes every lane from q backward rounds to q + 1. */
    method DecryptPair(ks: seq<Subkey>, l0: seq<bv32>, r0: seq<bv32>, lb: seq<bv32>, rb: seq<bv32>, q: nat) returns (l: seq<bv32>, r: seq<bv32>)
      requires Valid() && |l0| == |r0| && q < Pairs(ks) && BackwardSoFar(ks, l0, r0, lb, rb, q)
      ensures BackwardSoFar(ks, l0, r0, l, r, q + 1)
    {
      var j := |ks| - 2 * (q + 1);
      var a, b := ks[j + 1], ks[j];
      l, r := RoundLanes(lb, rb, a, b);
      BackwardLanes(RoundF, ks, l0, r0, lb, rb, l, r, q, j, a, b);
    }

    /** The middle of process_batch: the encryption or the decryption loop, as `decrypt` says. */
    method RoundsLanes(l0: seq<bv32>, r0: seq<bv32>, decrypt: bool) returns (l: seq<bv32>, r: seq<bv32>)
      requires Valid() && |l0| == |r0|
      ensures |l| == |l0| && |r| == |l0|
      ensures forall i {:trigger Rounds(keysched[..], Halves(l0[i], r0[i]), decrypt)} :: 0 <= i < |l0| ==>
        Halves(l[i], r[i]) == Rounds(keysched[..], Halves(l0[i], r0[i]), decrypt)
    {
      if decrypt {
        l, r := DecryptLanes(l0, r0);
      } else {
        l, r := EncryptLanes(l0, r0);
      }
    }

    /** The last loop of process_batch: lane i writes r to bytes 8i .. 8i + 3 of the chunk and l to 8i + 4 .. 8i + 7. */
    method StoreLanes(data: array<byte>, off: nat, l: seq<bv32>, r: seq<bv32>)
      requires |l| == |r| && off + 8 * |l| <= data.Length
      modifies data
      ensures data[..] == old(data[..off]) + Emit(l, r) + old(data[off + 8 * |l|..])
    {
      ghost var orig := data[..];
      var i := 0;
      while i < |l|
        invariant i <= |l|
        invariant data[..] == orig[..off] + Emit(l[..i], r[..i]) + orig[off + 8 * i..]
      {
        StoreLane(data, orig, off, l, r, i);
        i := i + 1;
      }
      assert l[..i] == l && r[..i] == r;
    }

    /** One turn of the last loop: lane i's r and then l written big-endian at `off + 8i` extend what is stored by one lane. */
    method StoreLane(data: array<byte>, ghost orig: seq<byte>, off: nat, l: seq<bv32>, r: seq<bv32>, i: nat)
      requires |l| == |r| && i < |l| && off + 8 * |l| <= data.Length == |orig|
      requires data[..] == orig[..off] + Emit(l[..i], r[..i]) + orig[off + 8 * i..]
      modifies data
      ensures data[..] == orig[..off] + Emit(l[..i + 1], r[..i + 1]) + orig[off + 8 * (i + 1)..]
    {
      ghost var before := data[..];
      var o := off + i * 8;
      PutWord(data, o, r[i]);
      ghost var mid := data[..];
      PutWord(data, o + 4, l[i]);
      StoreStep(orig, before, mid, data[..], off, l, r, i);
    }

    /**
      * process_batch on the chunk of `8 * b` bytes at `off`: every block of
      * the chunk goes through the cipher on its own, and no byte outside the
      * chunk changes. The chunk must hold `b` blocks (the slices of the
      * source panic otherwise).
      */
    method ProcessBatch(data: array<byte>, off: nat, b: nat, decrypt: bool)
      requires Valid() && keysched as object != data && off + 8 * b <= data.Length
      modifies data
      ensures data[..] == old(data[..off]) + Transform(keysched[..], old(data[off..off + 8 * b]), decrypt) + old(data[off + 8 * b..])
    {
      var l, r := LoadLanes(data, off, b);
      ghost var chunk, l0, r0 := data[off..off + 8 * b], l, r;
      l, r := RoundsLanes(l, r, decrypt);
      ghost var ks := keysched[..];
      LanesOut(ks, chunk, l0, r0, l, r, decrypt);
      StoreLanes(data, off, l, r);
    }

    /**
      * A sequential `chunks_exact_mut(8 * b)` over `data[from..to]` calling
      * process_batch on each chunk; the parallel iterator of the source
      * does the same to disjoint chunks. A shorter remainder is left alone.
      */
    method Chunks(data: array<byte>, from: nat, to: nat, b: nat, decrypt: bool)
      requires Valid() && keysched as object != data && b > 0 && from <= to <= data.Length
      modifies data
      ensures var m := ChunksDone(to - from, 8 * b);
        data[..] == old(data[..from]) + Transform(keysched[..], old(data[from..from + m]), decrypt) + old(data[from + m..])
    {
      ghost var ks, start := keysched[..], data[..];
      WholeBlocks(b);
      var off := from;
      while off + 8 * b <= to
        invariant from <= off <= to && (off - from) % 8 == 0 && keysched[..] == ks
        invariant (off - from) + ChunksDone(to - off, 8 * b) == ChunksDone(to - from, 8 * b)
        invariant data[..] == start[..from] + Transform(ks, start[from..off], decrypt) + start[off..]
      {
        var next := off + 8 * b;
        ChunkOnce(data, start, from, off, next, b, decrypt);
        ChunkAdvance(from, off, next, to, 8 * b);
        off := next;
      }
      assert from + ChunksDone(to - from, 8 * b) == off;
    }

    /** One turn of the chunk loop: process_batch on `off..next` extends the transformed part of `start[from..]` to `next`. */
    method ChunkOnce(data: array<byte>, ghost start: seq<byte>, from: nat, off: nat, next: nat, b: nat, decrypt: bool)
      requires Valid() && keysched as object != data && next == off + 8 * b <= data.Length == |start|
      requires from <= off && (off - from) % 8 == 0 && (next - off) % 8 == 0 && (next - from) % 8 == 0
      requires data[..] == start[..from] + Transform(keysched[..], start[from..off], decrypt) + start[off..]
      modifies data
      ensures data[..] == start[..from] + Transform(keysched[..], start[from..next], decrypt) + start[next..]
    {
      ghost var ks, mid := keysched[..], data[..];
      ProcessBatch(data, off, b, decrypt);
      assert keysched[..] == ks;
      ChunkStep(ks, start, mid, data[..], from, off, next, decrypt);
    }

    /** encrypt_blocks / decrypt_blocks: process_batch on the whole buffer, which must hold b blocks. */
    method Blocks(data: array<byte>, b: nat, decrypt: bool)
      requires Valid() && keysched as object != data && 8 * b <= data.Length
      modifies data
      ensures data[..] == Transform(keysched[..], old(data[..8 * b]), decrypt) + old(data[8 * b..])
    {
      ghost var start := data[..];
      ProcessBatch(data, 0, b, decrypt);
      WholeBlocks(b);
      FromStart(keysched[..], start, 8 * b, decrypt);
    }

    /** encrypt_blocks_par / decrypt_blocks_par: process_batch on every whole chunk of b blocks. */
    method BlocksPar(data: array<byte>, b: nat, decrypt: bool)
      requires Valid() && keysched as object != data && b > 0
      modifies data
      ensures var m := ChunksDone(data.Length, 8 * b);
        data[..] == Transform(keysched[..], old(data[..m]), decrypt) + old(data[m..])
    {
      ghost var start := data[..];
      Chunks(data, 0, data.Length, b, decrypt);
      WholeBlocks(b);
      FromStart(keysched[..], start, ChunksDone(data.Length, 8 * b), decrypt);
    }

    /**
      * dispatch: a buffer of whole blocks is cut into a head of ⌊len/64⌋·64
      * bytes, processed 8 blocks at a time, and a tail processed one block at
      * a time; the whole buffer goes through the cipher block by block.
      */
    method Dispatch(data: array<byte>, decrypt: bool)
      requires Valid() && keysched as object != data && data.Length % 8 == 0
      modifies data
      ensures data[..] == Transform(keysched[..], old(data[..]), decrypt)
    {
      ghost var ks, start := keysched[..], data[..];
      var len := data.Length;
      var head := (len / 64) * 64;
      ChunksDoneAll(len / 64, 64);
      Chunks(data, 0, head, 8, decrypt);
      assert keysched[..] == ks;
      FinishTail(data, start, head, decrypt);
    }

    /**
      * The blocks after a transformed head of `head` bytes, one at a time: the
      * whole buffer is then transformed.
      */
    method FinishTail(data: array<byte>, ghost start: seq<byte>, head: nat, decrypt: bool)
      requires Valid() && keysched as object != data && data.Length == |start|
      requires data.Length % 8 == 0 && head <= data.Length && head % 8 == 0
      requires data[..] == start[..0] + Transform(keysched[..], start[0..head], decrypt) + start[head..]
      modifies data
      ensures data[..] == Transform(keysched[..], start, decrypt)
    {
      ghost var ks, mid := keysched[..], data[..];
      ghost var m := ChunksDone(data.Length - head, 8 * 1);
      Chunks(data, head, data.Length, 1, decrypt);
      assert keysched[..] == ks;
      TailJoined(ks, start, mid, data[..], head, m, decrypt);
    }

    /** encrypt_par / decrypt_par: dispatch over the whole buffer. */
    method CryptPar(data: array<byte>, decrypt: bool)
      requires Valid() && keysched as object != data && data.Length % 8 == 0
      modifies data
      ensures data[..] == Transform(keysched[..], old(data[..]), decrypt)
    {
      Dispatch(data, decrypt);
    }

    /**
      * encrypt / decrypt: on the serial path process_batch::<64> on the
      * buffer, which needs at least 512 bytes and covers only the first 512;
      * on the parallel path whole chunks of 32 or 64 blocks. `threads` is
      * the size of the worker pool.
      */
    method Crypt(data: array<byte>, threads: nat, decrypt: bool)
      requires Valid() && keysched as object != data && (Serial(data.Length, threads) ==> 512 <= data.Length)
      modifies data
      ensures data[..] == AsWritten(keysched[..], old(data[..]), threads, decrypt)
    {
      ghost var start := data[..];
      var len := data.Length;
      if len < 32768 || threads < 2 {
        Blocks(data, 64, decrypt);
        assert start[..512] == old(data[..512]);
        return;
      }
      var bytesPerThread := len / threads;
      if bytesPerThread > 1048576 {
        BlocksPar(data, 32, decrypt);
      } else {
        BlocksPar(data, 64, decrypt);
      }
    }

    /**
      * encrypt and decrypt with the serial path going through dispatch, so
      * that every block of a buffer of whole blocks is transformed, and the
      * parallel path finishing the remainder one block at a time.
      */
    method CryptWhole(data: array<byte>, threads: nat, decrypt: bool)
      requires Valid() && keysched as object != data && data.Length % 8 == 0
      modifies data
      ensures data[..] == Transform(keysched[..], old(data[..]), decrypt)
    {
      var len := data.Length;
      if len < 32768 || threads < 2 {
        Dispatch(data, decrypt);
        return;
      }
      var b := if len / threads > 1048576 then 32 else 64;
      ChunksThenTail(data, b, decrypt);
    }

    /** The parallel path of CryptWhole: whole chunks of b blocks, then the remaining blocks one at a time. */
    method ChunksThenTail(data: array<byte>, b: nat, decrypt: bool)
      requires Valid() && keysched as object != data && data.Length % 8 == 0 && b > 0
      modifies data
      ensures data[..] == Transform(keysched[..], old(data[..]), decrypt)
    {
      ghost var ks, start := keysched[..], data[..];
      var m := ChunksDone(data.Length - 0, 8 * b);
      ChunksAligned(data.Length - 0, b);
      Chunks(data, 0, data.Length, b, decrypt);
      assert keysched[..] == ks;
      HeadDone(ks, start, data[..], m, decrypt);
      FinishTail(data, start, m, decrypt);
    }
  }

  /** `copy_from_slice(&w.to_be_bytes())` at `o`. */
  method PutWord(data: array<byte>, o: nat, w: bv32)
    requires o + 4 <= data.Length
    modifies data
    ensures data[..] == old(data[..o]) + Store(w) + old(data[o + 4..])
  {
    var bytes := Store(w);
    data[o] := bytes[0];
    data[o + 1] := bytes[1];
    data[o + 2] := bytes[2];
    data[o + 3] := bytes[3];
  }

  /** Reading lane i of the chunk at `off`. */
  lemma LoadStep(data: seq<byte>, off: nat, b: nat, i: nat)
    requires i < b && off + 8 * b <= |data|
    ensures var o := off + i * 8;
      LaneInput(data[off..off + 8 * b], i) == Halves(Load(data[o..o + 4]), Load(data[o + 4..o + 8]))
  {
    var o := off + i * 8;
    var block := data[off..off + 8 * b][8 * i..8 * i + 8];
    SliceOfSlice(data, off, off + 8 * b, 8 * i, 8 * i + 8);
    assert block == data[o..o + 8];
    assert block[..4] == data[o..o + 4] && block[4..] == data[o + 4..o + 8];
  }

  /** Writing lane i extends the emitted bytes by that lane's 8 bytes. */
  lemma StoreStep(orig: seq<byte>, before: seq<byte>, mid: seq<byte>, after: seq<byte>, off: nat, l: seq<bv32>, r: seq<bv32>, i: nat)
    requires |l| == |r| && i < |l| && off + 8 * |l| <= |orig|
    requires before == orig[..off] + Emit(l[..i], r[..i]) + orig[off + 8 * i..]
    requires mid == before[..off + 8 * i] + Store(r[i]) + before[off + 8 * i + 4..]
    requires after == mid[..off + 8 * i + 4] + Store(l[i]) + mid[off + 8 * i + 8..]
    ensures after == orig[..off] + Emit(l[..i + 1], r[..i + 1]) + orig[off + 8 * (i + 1)..]
  {
    TakeTake(l, i + 1, i);
    TakeTake(r, i + 1, i);
    Extend(orig, before, mid, after, off, Emit(l[..i], r[..i]), Store(r[i]), Store(l[i]));
    Assoc(Emit(l[..i], r[..i]), Store(r[i]), Store(l[i]));
  }

  /** Transforming `start[0..n]` in place, written the way a slice from 0 reads. */
  lemma {:induction false} FromStart(ks: seq<Subkey>, start: seq<byte>, n: nat, decrypt: bool)
    requires n <= |start| && n % 8 == 0
    ensures start[..0] + Transform(ks, start[0..n], decrypt) + start[n..] == Transform(ks, start[..n], decrypt) + start[n..]
  {
    Ends(start, n);
    EmptyLeft(start[..0], Transform(ks, start[..n], decrypt));
  }

  /** The tail loop of dispatch, as the chunk loop states it for one block per chunk, completes the buffer. */
  lemma TailJoined(ks: seq<Subkey>, start: seq<byte>, mid: seq<byte>, now: seq<byte>, head: nat, m: nat, decrypt: bool)
    requires |start| % 8 == 0 && head <= |start| && head % 8 == 0 && |mid| == |start|
    requires mid == start[..0] + Transform(ks, start[0..head], decrypt) + start[head..]
    requires m == ChunksDone(|mid| - head, 8 * 1)
    requires now == mid[..head] + Transform(ks, mid[head..head + m], decrypt) + mid[head + m..]
    ensures now == Transform(ks, start, decrypt)
  {
    TailCovered(|start|, head);
    assert head + m == |start|;
    Joined(ks, start, mid, now, head, decrypt);
  }

  /** The chunk loop's statement for a run from 0, with the offsets written out. */
  lemma HeadDone(ks: seq<Subkey>, start: seq<byte>, now: seq<byte>, m: nat, decrypt: bool)
    requires m <= |start| && m % 8 == 0
    requires now == start[..0] + Transform(ks, start[0..0 + m], decrypt) + start[0 + m..]
    ensures now == start[..0] + Transform(ks, start[0..m], decrypt) + start[m..]
  {
  }

  /** A transformed head followed by a transformed tail is the transformed buffer. */
  lemma {:induction false} Joined(ks: seq<Subkey>, start: seq<byte>, mid: seq<byte>, now: seq<byte>, head: nat, decrypt: bool)
    requires |start| % 8 == 0 && head <= |start| && head % 8 == 0
    requires mid == start[..0] + Transform(ks, start[0..head], decrypt) + start[head..]
    requires now == mid[..head] + Transform(ks, mid[head..|start|], decrypt) + mid[|start|..]
    ensures now == Transform(ks, start, decrypt)
  {
    AlignedDiff(head, |start|);
    ChunkStep(ks, start, mid, now, 0, head, |start|, decrypt);
    Whole(start);
    Ends(start, 0);
    EmptyLeft(start[..0], Transform(ks, start, decrypt));
    EmptyRight(Transform(ks, start, decrypt), start[|start|..]);
  }
}
