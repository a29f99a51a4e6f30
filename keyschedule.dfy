/**
  * The ICE key schedule. A key of 8 bytes per level fills four 16-bit
  * registers; every subkey word is produced by shifting in the low bits of
  * the registers, four at a time, while each register rotates right with the
  * complement of its outgoing bit entering at the top. Eight subkeys form a
  * group; a level writes a forward group at its own offset and a mirror
  * group at the far end of the schedule.
  *
  * key_sched_build is modelled as a method over the two arrays it updates and
  * proved against a description that has no loops: word w of a subkey packs
  * the four-bit nibbles read at outer steps w, w + 3, ..., w + 12 from the
  * registers rotated that many times.
  */
module KeySchedule {

  import opened Words

  /** kb: the four key registers. */
  type Regs = r: seq<bv16> | |r| == 4 witness [0, 0, 0, 0]

  /** IceSubkey.val: the three words of a round subkey. */
  type Subkey = s: seq<bv32> | |s| == 3 witness [0, 0, 0]

  /** A key rotation: the register a subkey starts reading from. */
  type Rot = r: nat | r < 4

  /** KEYROT: the rotations of a forward group (first half) and of a mirror group (second half). */
  const KEYROT: seq<Rot> := [0, 1, 2, 3, 2, 1, 3, 0, 1, 3, 2, 0, 3, 1, 0, 2]

  /** The register read at inner step k for rotation kr: `(kr + k) & 3`, both being non-negative. */
  function Reg(kr: Rot, k: nat): Rot {
    (kr + k) % 4
  }

  /** The bit a register gives up: its low bit, widened to a word. */
  function LowBit(x: bv16): bv32 {
    (x & 1) as bv32
  }

  /** The register after giving up its low bit: shifted right, the complement of that bit entering at bit 15. */
  function Rotate(x: bv16): bv16 {
    (x >> 1) | (((x & 1) ^ 1) << 15)
  }

  /** A subkey word with one more bit shifted in at the bottom. */
  function Feed(w: bv32, bit: bv32): bv32 {
    (w << 1) | bit
  }

  // ---- The description without loops ----

  /** All four registers rotated once. */
  function RotateAll(regs: Regs): Regs {
    [Rotate(regs[0]), Rotate(regs[1]), Rotate(regs[2]), Rotate(regs[3])]
  }

  /** The registers after t rotations each. */
  function RotN(regs: Regs, t: nat): Regs {
    if t == 0 then regs else RotateAll(RotN(regs, t - 1))
  }

  /** The four low bits read by one outer step, the first one read most significant. */
  function Nibble(regs: Regs, kr: Rot): bv32 {
    (LowBit(regs[Reg(kr, 0)]) << 3) | (LowBit(regs[Reg(kr, 1)]) << 2) |
    (LowBit(regs[Reg(kr, 2)]) << 1) | LowBit(regs[Reg(kr, 3)])
  }

  /** The nibble read by outer step j of a subkey: the registers have rotated j times by then. */
  function NibbleAt(regs: Regs, kr: Rot, j: nat): bv32 {
    Nibble(RotN(regs, j), kr)
  }

  /** The nibbles word w of a subkey is fed, in order: those of outer steps w, w + 3, ..., w + 12. */
  function Feeds(regs: Regs, kr: Rot, w: nat): (ns: seq<bv32>)
    ensures |ns| == 5
  {
    seq(5, (c: nat) => NibbleAt(regs, kr, w + 3 * c))
  }

  /** A word with one more nibble shifted in at the bottom. */
  function PushNibble(x: bv32, n: bv32): bv32 {
    (x << 4) | n
  }

  /** A word after the first c nibbles of ns have been shifted in, the first one highest. */
  function Shifted(ns: seq<bv32>, c: nat): bv32
    requires c <= |ns|
  {
    if c == 0 then 0 else PushNibble(Shifted(ns, c - 1), ns[c - 1])
  }

  /** Word w of the subkey built from the registers with rotation kr. */
  function WordOf(regs: Regs, kr: Rot, w: nat): bv32 {
    Shifted(Feeds(regs, kr, w), 5)
  }

  /** The subkey built from the registers with rotation kr. */
  function SubkeyOf(regs: Regs, kr: Rot): Subkey {
    [WordOf(regs, kr, 0), WordOf(regs, kr, 1), WordOf(regs, kr, 2)]
  }

  /** How many of the first j outer steps feed word w: steps w, w + 3, ... */
  function FeedCount(w: nat, j: nat): nat {
    if j == 0 then 0 else FeedCount(w, j - 1) + (if (j - 1) % 3 == w then 1 else 0)
  }

  /** The steps that fed word w so far end at the last step below j that is w plus a multiple of three. */
  lemma {:induction false} FeedCountBounds(w: nat, j: nat)
    requires w < 3
    ensures j <= w + 3 * FeedCount(w, j) <= j + 2
  {
    if j > 0 {
      FeedCountBounds(w, j - 1);
    }
  }

  /** Step j, when it feeds word w, gives it nibble number FeedCount(w, j). */
  lemma {:induction false} FeedCountStep(w: nat, j: nat)
    requires w < 3 && j % 3 == w
    ensures j == w + 3 * FeedCount(w, j)
  {
    FeedCountBounds(w, j);
    var c := FeedCount(w, j);
    assert (w + 3 * c) % 3 == w;
  }

  /** Fifteen outer steps feed each word five times. */
  lemma {:induction false} FeedCountEnd(w: nat)
    requires w < 3
    ensures FeedCount(w, 15) == 5
  {
    FeedCountBounds(w, 15);
  }

  // ---- The loops of key_sched_build ----

  /** The word after feeding the low bits of the first k registers read, from the registers as they were. */
  function FedWord(regs: Regs, word: bv32, kr: Rot, k: nat): bv32
    requires k <= 4
  {
    if k == 0 then word else Feed(FedWord(regs, word, kr, k - 1), LowBit(regs[Reg(kr, k - 1)]))
  }

  lemma LowBitRange(x: bv16)
    ensures LowBit(x) <= 1
  {
  }

  lemma FeedFour(w: bv32, b0: bv32, b1: bv32, b2: bv32, b3: bv32)
    requires b0 <= 1 && b1 <= 1 && b2 <= 1 && b3 <= 1
    ensures Feed(Feed(Feed(Feed(w, b0), b1), b2), b3) == (w << 4) | (b0 << 3) | (b1 << 2) | (b2 << 1) | b3
  {
  }

  /** Four single bits fed one by one shift the nibble they make in. */
  lemma {:induction false} FedNibble(regs: Regs, word: bv32, kr: Rot)
    ensures FedWord(regs, word, kr, 4) == PushNibble(word, Nibble(regs, kr))
  {
    var b0, b1, b2, b3 := LowBit(regs[Reg(kr, 0)]), LowBit(regs[Reg(kr, 1)]), LowBit(regs[Reg(kr, 2)]), LowBit(regs[Reg(kr, 3)]);
    LowBitRange(regs[Reg(kr, 0)]);
    LowBitRange(regs[Reg(kr, 1)]);
    LowBitRange(regs[Reg(kr, 2)]);
    LowBitRange(regs[Reg(kr, 3)]);
    assert FedWord(regs, word, kr, 0) == word;
    assert FedWord(regs, word, kr, 1) == Feed(word, b0);
    assert FedWord(regs, word, kr, 2) == Feed(Feed(word, b0), b1);
    assert FedWord(regs, word, kr, 4) == Feed(Feed(FedWord(regs, word, kr, 2), b2), b3);
    FeedFour(word, b0, b1, b2, b3);
  }

  /** The four inner steps read the four registers, each once. */
  lemma RegCovers(kr: Rot, r: Rot)
    ensures Reg(kr, (r + 4 - kr) % 4) == r
  {
  }

  /** The registers as the inner loop leaves them after k steps: those read so far rotated once. */
  ghost predicate InnerRegs(kb: seq<bv16>, regs: Regs, kr: Rot, k: nat) {
    |kb| == 4 &&
    forall i :: 0 <= i < 4 ==> kb[Reg(kr, i)] == if i < k then Rotate(regs[Reg(kr, i)]) else regs[Reg(kr, i)]
  }

  /** Inner step k reads register Reg(kr, k) untouched so far, and rotating it extends InnerRegs by one. */
  lemma InnerStep(kb: seq<bv16>, kb': seq<bv16>, regs: Regs, kr: Rot, k: nat)
    requires k < 4 && InnerRegs(kb, regs, kr, k)
    requires kb' == kb[Reg(kr, k) := Rotate(kb[Reg(kr, k)])]
    ensures kb[Reg(kr, k)] == regs[Reg(kr, k)]
    ensures InnerRegs(kb', regs, kr, k + 1)
  {
  }

  /** After the four inner steps every register has rotated once. */
  lemma InnerDone(kb: seq<bv16>, regs: Regs, kr: Rot)
    requires InnerRegs(kb, regs, kr, 4)
    ensures kb == RotateAll(regs)
  {
    forall r: Rot
      ensures kb[r] == RotateAll(regs)[r]
    {
      RegCovers(kr, r);
    }
  }

  /**
    * The innermost loop of key_sched_build: four bits, one from each register
    * starting at register kr, are shifted into the word, and each register
    * read rotates once.
    */
  method ShiftInNibble(kb: array<bv16>, word: bv32, kr: Rot) returns (res: bv32)
    requires kb.Length == 4
    modifies kb
    ensures kb[..] == RotateAll(old(kb[..]))
    ensures res == PushNibble(word, Nibble(old(kb[..]), kr))
  {
    ghost var regs: Regs := kb[..];
    res := word;
    var k := 0;
    while k < 4
      invariant k <= 4
      invariant InnerRegs(kb[..], regs, kr, k)
      invariant res == FedWord(regs, word, kr, k)
    {
      ghost var before := kb[..];
      var reg := Reg(kr, k);
      res := Feed(res, LowBit(kb[reg]));
      kb[reg] := Rotate(kb[reg]);
      InnerStep(before, kb[..], regs, kr, k);
      k := k + 1;
    }
    InnerDone(kb[..], regs, kr);
    FedNibble(regs, word, kr);
  }

  /** After j outer steps word w holds, shifted in, the nibbles of the steps so far that fed it. */
  ghost predicate WordFedSoFar(x: bv32, regs: Regs, kr: Rot, w: nat, j: nat) {
    FeedCount(w, j) <= 5 && x == Shifted(Feeds(regs, kr, w), FeedCount(w, j))
  }

  /** After j outer steps each of the three words holds what it has been fed. */
  ghost predicate FedSoFar(sk: Subkey, regs: Regs, kr: Rot, j: nat) {
    WordFedSoFar(sk[0], regs, kr, 0, j) && WordFedSoFar(sk[1], regs, kr, 1, j) && WordFedSoFar(sk[2], regs, kr, 2, j)
  }

  /** A zeroed subkey has been fed nothing. */
  lemma FedNothing(regs: Regs, kr: Rot)
    ensures FedSoFar([0, 0, 0], regs, kr, 0)
  {
  }

  /** Outer step j shifts the nibble it reads into word j % 3 and leaves the other words alone. */
  lemma FedStep(sk: Subkey, regs: Regs, kr: Rot, j: nat, word: bv32)
    requires j < 15 && FedSoFar(sk, regs, kr, j)
    requires word == PushNibble(sk[j % 3], NibbleAt(regs, kr, j))
    ensures FedSoFar(sk[j % 3 := word], regs, kr, j + 1)
  {
    var w := j % 3;
    FedHit(regs, kr, j, sk[w], word);
    if w == 0 {
      FedMiss(sk[1], regs, kr, 1, j);
      FedMiss(sk[2], regs, kr, 2, j);
    } else if w == 1 {
      FedMiss(sk[0], regs, kr, 0, j);
      FedMiss(sk[2], regs, kr, 2, j);
    } else {
      FedMiss(sk[0], regs, kr, 0, j);
      FedMiss(sk[1], regs, kr, 1, j);
    }
  }

  /** The word step j feeds takes in nibble number FeedCount(j % 3, j) of its feeds. */
  lemma FedHit(regs: Regs, kr: Rot, j: nat, before: bv32, word: bv32)
    requires j < 15 && WordFedSoFar(before, regs, kr, j % 3, j)
    requires word == PushNibble(before, NibbleAt(regs, kr, j))
    ensures WordFedSoFar(word, regs, kr, j % 3, j + 1)
  {
    var w := j % 3;
    var c := FeedCount(w, j);
    FeedCountStep(w, j);
    FeedCountBounds(w, j + 1);
    assert FeedCount(w, j + 1) == c + 1;
    assert Feeds(regs, kr, w)[c] == NibbleAt(regs, kr, j);
  }

  /** The other two words are not fed by step j. */
  lemma FedMiss(x: bv32, regs: Regs, kr: Rot, w: nat, j: nat)
    requires w < 3 && w != j % 3 && WordFedSoFar(x, regs, kr, w, j)
    ensures WordFedSoFar(x, regs, kr, w, j + 1)
  {
    assert FeedCount(w, j + 1) == FeedCount(w, j);
  }

  /** After the fifteen outer steps each word has all its nibbles: the subkey is SubkeyOf. */
  lemma FedAll(sk: Subkey, regs: Regs, kr: Rot)
    requires FedSoFar(sk, regs, kr, 15)
    ensures sk == SubkeyOf(regs, kr)
  {
    FeedCountEnd(0);
    FeedCountEnd(1);
    FeedCountEnd(2);
  }

  /**
    * One subkey of key_sched_build: the subkey is zeroed, then fifteen outer
    * steps each shift a nibble into word j % 3.
    */
  method BuildSubkey(keysched: array<Subkey>, kb: array<bv16>, slot: nat, kr: Rot)
    requires kb.Length == 4 && slot < keysched.Length
    requires keysched as object != kb
    modifies keysched, kb
    ensures keysched[slot] == SubkeyOf(old(kb[..]), kr)
    ensures kb[..] == RotN(old(kb[..]), 15)
    ensures forall s :: 0 <= s < keysched.Length && s != slot ==> keysched[s] == old(keysched[s])
  {
    ghost var regs: Regs := kb[..];
    keysched[slot] := [0, 0, 0];
    FedNothing(regs, kr);
    var j := 0;
    while j < 15
      invariant j <= 15
      invariant kb[..] == RotN(regs, j)
      invariant FedSoFar(keysched[slot], regs, kr, j)
      invariant forall s :: 0 <= s < keysched.Length && s != slot ==> keysched[s] == old(keysched[s])
    {
      var w := j % 3;
      var word := ShiftInNibble(kb, keysched[slot][w], kr);
      FedStep(keysched[slot], regs, kr, j, word);
      keysched[slot] := keysched[slot][w := word];
      j := j + 1;
    }
    FedAll(keysched[slot], regs, kr);
  }

  /** Rotating a times and then b times is rotating a + b times. */
  lemma {:induction false} RotNAdd(regs: Regs, a: nat, b: nat)
    ensures RotN(RotN(regs, a), b) == RotN(regs, a + b)
  {
    if b > 0 {
      RotNAdd(regs, a, b - 1);
    }
  }

  /** Fifteen more rotations after 15 * i of them. */
  lemma {:induction false} RotNStep(regs: Regs, i: nat, now: seq<bv16>)
    requires now == RotN(RotN(regs, 15 * i), 15)
    ensures now == RotN(regs, 15 * (i + 1))
  {
    RotNAdd(regs, 15 * i, 15);
  }

  /** How many rotations key_sched_build uses: at most eight (`take(8)`). */
  function Taken(keyrot: seq<Rot>): nat {
    if |keyrot| < 8 then |keyrot| else 8
  }

  /** The subkeys one call of key_sched_build writes: subkey m starts from registers rotated 15 * m times. */
  function Group(regs: Regs, keyrot: seq<Rot>): (g: seq<Subkey>)
    ensures |g| == Taken(keyrot)
  {
    seq(Taken(keyrot), (m: nat) requires m < Taken(keyrot) => SubkeyOf(RotN(regs, 15 * m), keyrot[m]))
  }

  /** The schedule `now` holds the first i subkeys of g from slot n on and agrees with `before` elsewhere. */
  ghost predicate Placed<T>(now: seq<T>, before: seq<T>, n: nat, g: seq<T>, i: nat)
    requires i <= |g|
  {
    |now| == |before| &&
    forall s :: 0 <= s < |now| ==> now[s] == if n <= s < n + i then g[s - n] else before[s]
  }

  /** Writing subkey i of g at slot n + i extends what is placed by one. */
  lemma PlacedStep<T>(now: seq<T>, before: seq<T>, n: nat, g: seq<T>, i: nat, next: seq<T>)
    requires i < |g| && n + i < |now| && Placed(now, before, n, g, i)
    requires |next| == |now| && next[n + i] == g[i]
    requires forall s :: 0 <= s < |now| && s != n + i ==> next[s] == now[s]
    ensures Placed(next, before, n, g, i + 1)
  {
  }

  /**
    * key_sched_build: writes Group(kb, keyrot) into the schedule from slot n,
    * leaves every other slot alone, and leaves the registers rotated fifteen
    * times per subkey written.
    */
  method KeySchedBuild(keysched: array<Subkey>, kb: array<bv16>, n: nat, keyrot: seq<Rot>)
    requires kb.Length == 4 && keysched as object != kb
    requires n + Taken(keyrot) <= keysched.Length
    modifies keysched, kb
    ensures Placed(keysched[..], old(keysched[..]), n, Group(old(kb[..]), keyrot), Taken(keyrot))
    ensures kb[..] == RotN(old(kb[..]), 15 * Taken(keyrot))
  {
    ghost var regs: Regs := kb[..];
    ghost var g := Group(regs, keyrot);
    var i := 0;
    while i < Taken(keyrot)
      invariant i <= Taken(keyrot)
      invariant kb[..] == RotN(regs, 15 * i)
      invariant Placed(keysched[..], old(keysched[..]), n, g, i)
    {
      ghost var now := keysched[..];
      BuildSubkey(keysched, kb, n + i, keyrot[i]);
      RotNStep(regs, i, kb[..]);
      PlacedStep(now, old(keysched[..]), n, g, i, keysched[..]);
      i := i + 1;
    }
  }

  // ---- Bit widths ----

  /** Five nibbles side by side, the first one highest. */
  function Pack(n0: bv32, n1: bv32, n2: bv32, n3: bv32, n4: bv32): bv32 {
    (n0 << 16) | (n1 << 12) | (n2 << 8) | (n3 << 4) | n4
  }

  lemma ShiftIn(p0: bv32, p1: bv32, p2: bv32, p3: bv32, p4: bv32, p5: bv32,
                n0: bv32, n1: bv32, n2: bv32, n3: bv32, n4: bv32)
    requires p0 == 0 && p1 == (p0 << 4) | n0 && p2 == (p1 << 4) | n1 && p3 == (p2 << 4) | n2
    requires p4 == (p3 << 4) | n3 && p5 == (p4 << 4) | n4
    ensures p5 == Pack(n0, n1, n2, n3, n4)
  {
  }

  /** Shifting in five nibbles one after the other packs them. */
  lemma {:induction false} ShiftedFive(ns: seq<bv32>)
    requires |ns| == 5
    ensures Shifted(ns, 5) == Pack(ns[0], ns[1], ns[2], ns[3], ns[4])
  {
    var p0, p1, p2, p3, p4, p5 := Shifted(ns, 0), Shifted(ns, 1), Shifted(ns, 2), Shifted(ns, 3), Shifted(ns, 4), Shifted(ns, 5);
    var n0, n1, n2, n3, n4 := ns[0], ns[1], ns[2], ns[3], ns[4];
    assert p1 == (p0 << 4) | n0;
    assert p2 == (p1 << 4) | n1;
    assert p3 == (p2 << 4) | n2;
    assert p4 == (p3 << 4) | n3;
    assert p5 == (p4 << 4) | n4;
    ShiftIn(p0, p1, p2, p3, p4, p5, n0, n1, n2, n3, n4);
  }

  /** Word w of a subkey packs the nibbles of outer steps w, w + 3, w + 6, w + 9 and w + 12. */
  lemma WordPacks(regs: Regs, kr: Rot, w: nat)
    ensures WordOf(regs, kr, w) == Pack(NibbleAt(regs, kr, w), NibbleAt(regs, kr, w + 3), NibbleAt(regs, kr, w + 6),
                                        NibbleAt(regs, kr, w + 9), NibbleAt(regs, kr, w + 12))
  {
    var ns := Feeds(regs, kr, w);
    ShiftedFive(ns);
    assert ns[0] == NibbleAt(regs, kr, w) && ns[1] == NibbleAt(regs, kr, w + 3) && ns[2] == NibbleAt(regs, kr, w + 6);
    assert ns[3] == NibbleAt(regs, kr, w + 9) && ns[4] == NibbleAt(regs, kr, w + 12);
  }

  lemma NibbleRange(regs: Regs, kr: Rot)
    ensures Nibble(regs, kr) < 16
  {
    LowBitRange(regs[Reg(kr, 0)]);
    LowBitRange(regs[Reg(kr, 1)]);
    LowBitRange(regs[Reg(kr, 2)]);
    LowBitRange(regs[Reg(kr, 3)]);
  }

  lemma PackRange(n0: bv32, n1: bv32, n2: bv32, n3: bv32, n4: bv32)
    requires n0 < 16 && n1 < 16 && n2 < 16 && n3 < 16 && n4 < 16
    ensures Pack(n0, n1, n2, n3, n4) < 0x100000
  {
  }

  /** A subkey word holds no more than the 20 bits shifted into it. */
  predicate Fits(sk: Subkey) {
    sk[0] < 0x100000 && sk[1] < 0x100000 && sk[2] < 0x100000
  }

  /** Every subkey word is below 2^20: twenty bits shifted into a zeroed word. */
  lemma SubkeyFits(regs: Regs, kr: Rot)
    ensures Fits(SubkeyOf(regs, kr))
  {
    forall w | 0 <= w < 3
      ensures WordOf(regs, kr, w) < 0x100000
    {
      WordPacks(regs, kr, w);
      NibbleRange(RotN(regs, w), kr);
      NibbleRange(RotN(regs, w + 3), kr);
      NibbleRange(RotN(regs, w + 6), kr);
      NibbleRange(RotN(regs, w + 9), kr);
      NibbleRange(RotN(regs, w + 12), kr);
      PackRange(NibbleAt(regs, kr, w), NibbleAt(regs, kr, w + 3), NibbleAt(regs, kr, w + 6),
                NibbleAt(regs, kr, w + 9), NibbleAt(regs, kr, w + 12));
    }
  }

  /** Every subkey key_sched_build writes fits in 20 bits. */
  lemma GroupFits(regs: Regs, keyrot: seq<Rot>)
    ensures forall m :: 0 <= m < Taken(keyrot) ==> Fits(Group(regs, keyrot)[m])
  {
    forall m | 0 <= m < Taken(keyrot)
      ensures Fits(Group(regs, keyrot)[m])
    {
      SubkeyFits(RotN(regs, 15 * m), keyrot[m]);
    }
  }

  // ---- key_set ----

  /** The registers of level i: kb[3 - j] is the big-endian pair key[8i + 2j], key[8i + 2j + 1]. */
  function KeyRegs(key: seq<byte>, i: nat): Regs
    requires 8 * i + 8 <= |key|
  {
    [Be16(key[8 * i + 6], key[8 * i + 7]), Be16(key[8 * i + 4], key[8 * i + 5]),
     Be16(key[8 * i + 2], key[8 * i + 3]), Be16(key[8 * i], key[8 * i + 1])]
  }

  /** The forward group of level i: eight subkeys with the first half of KEYROT. */
  function ForwardGroup(key: seq<byte>, i: nat): (g: seq<Subkey>)
    requires 8 * i + 8 <= |key|
    ensures |g| == 8
  {
    Group(KeyRegs(key, i), KEYROT)
  }

  /** The mirror group of level i: the registers carry on where the forward group left them (8 * 15 rotations), with the second half of KEYROT. */
  function MirrorGroup(key: seq<byte>, i: nat): (g: seq<Subkey>)
    requires 8 * i + 8 <= |key|
    ensures |g| == 8
  {
    Group(RotN(KeyRegs(key, i), 120), KEYROT[8..])
  }

  /** Groups of eight laid out one after the other. */
  function Flatten<T>(gs: seq<seq<T>>): (r: seq<T>)
    requires forall j :: 0 <= j < |gs| ==> |gs[j]| == 8
    ensures |r| == 8 * |gs|
  {
    if |gs| == 0 then [] else Flatten(gs[..|gs| - 1]) + gs[|gs| - 1]
  }

  /** Entry m of group i of a flattened layout is at 8i + m. */
  lemma {:induction false} FlattenAt<T>(gs: seq<seq<T>>, i: nat, m: nat)
    requires forall j :: 0 <= j < |gs| ==> |gs[j]| == 8
    requires i < |gs| && m < 8
    ensures Flatten(gs)[8 * i + m] == gs[i][m]
  {
    var init := gs[..|gs| - 1];
    if i < |gs| - 1 {
      FlattenAt(init, i, m);
      assert init[i] == gs[i];
    }
  }

  /** The forward groups of levels 0 .. l-1, in slot order. */
  function ForwardGroups(key: seq<byte>, l: nat): (gs: seq<seq<Subkey>>)
    requires 8 * l <= |key|
    ensures |gs| == l && forall j :: 0 <= j < l ==> gs[j] == ForwardGroup(key, j) && |gs[j]| == 8
  {
    seq(l, (j: nat) requires j < l => ForwardGroup(key, j))
  }

  /** The mirror groups of levels l-1 .. 0, in slot order. */
  function MirrorGroups(key: seq<byte>, l: nat): (gs: seq<seq<Subkey>>)
    requires 8 * l <= |key|
    ensures |gs| == l && forall j :: 0 <= j < l ==> gs[j] == MirrorGroup(key, Mirrored(l, j)) && |gs[j]| == 8
  {
    seq(l, (j: nat) requires j < l => MirrorGroup(key, Mirrored(l, j)))
  }

  /** The level whose mirror group comes j-th: levels run backwards in the second half. */
  function Mirrored(l: nat, j: nat): (i: nat)
    requires j < l
    ensures i < l && 8 * i + 8 <= 8 * l
  {
    l - 1 - j
  }

  /** The schedule of a key with `size` levels and 16 * size rounds. */
  function FullSchedule(key: seq<byte>, size: nat): (ks: seq<Subkey>)
    requires 8 * size <= |key|
    ensures |ks| == 16 * size
  {
    Flatten(ForwardGroups(key, size)) + Flatten(MirrorGroups(key, size))
  }

  /** Thin-ICE: eight subkeys from the first eight key bytes. */
  function ThinSchedule(key: seq<byte>): (ks: seq<Subkey>)
    requires 8 <= |key|
    ensures |ks| == 8
  {
    ForwardGroup(key, 0)
  }

  /** The shapes Ice::new produces: Thin-ICE (size 1, 8 rounds), or `size` levels and 16 * size rounds. */
  predicate Shape(size: nat, rounds: nat) {
    (size == 1 && rounds == 8) || (size >= 1 && rounds == 16 * size)
  }

  /** Where level i writes, forward or mirror, in a schedule of `size` levels: 8i, or 16 * size - 8 - 8i. */
  function Start(size: nat, i: nat, mirror: bool): nat
    requires i < size
  {
    if mirror then 16 * size - 8 - 8 * i else 8 * i
  }

  /** Every slot of the full schedule is written by some group ... */
  lemma StartsCover(size: nat, s: nat)
    requires s < 16 * size
    ensures exists i: nat, mirror: bool :: i < size && Start(size, i, mirror) <= s < Start(size, i, mirror) + 8
  {
    var i, mirror := SlotGroup(size, s);
  }

  /** ... and by no other: the groups tile 0 .. 16 * size. */
  lemma StartsDisjoint(size: nat, s: nat, i: nat, mirror: bool, i2: nat, mirror2: bool)
    requires i < size && i2 < size
    requires Start(size, i, mirror) <= s < Start(size, i, mirror) + 8
    requires Start(size, i2, mirror2) <= s < Start(size, i2, mirror2) + 8
    ensures i == i2 && mirror == mirror2
  {
  }

  /** Level i's forward group sits at slots 8i .. 8i + 7 ... */
  lemma FullScheduleForward(key: seq<byte>, size: nat, i: nat, m: nat)
    requires 8 * size <= |key| && i < size && m < 8
    ensures FullSchedule(key, size)[8 * i + m] == ForwardGroup(key, i)[m]
  {
    var fw, mr := ForwardGroups(key, size), MirrorGroups(key, size);
    LayoutLeft(fw, mr, i, m);
  }

  /** ... and its mirror group at slots 16 * size - 8 - 8i .. 16 * size - 1 - 8i. */
  lemma FullScheduleMirror(key: seq<byte>, size: nat, i: nat, m: nat)
    requires 8 * size <= |key| && i < size && m < 8
    ensures FullSchedule(key, size)[16 * size - 8 - 8 * i + m] == MirrorGroup(key, i)[m]
  {
    var fw, mr := ForwardGroups(key, size), MirrorGroups(key, size);
    var j := size - 1 - i;
    LayoutRight(fw, mr, j, m);
    assert 8 * |fw| + 8 * j + m == 16 * size - 8 - 8 * i + m;
    assert Mirrored(size, j) == i;
  }

  /** Entry m of group i of the first layout, in two layouts laid end to end. */
  lemma {:induction false} LayoutLeft<T>(fw: seq<seq<T>>, mr: seq<seq<T>>, i: nat, m: nat)
    requires forall j :: 0 <= j < |fw| ==> |fw[j]| == 8
    requires forall j :: 0 <= j < |mr| ==> |mr[j]| == 8
    requires i < |fw| && m < 8
    ensures (Flatten(fw) + Flatten(mr))[8 * i + m] == fw[i][m]
  {
    FlattenAt(fw, i, m);
  }

  /** Entry m of group j of the second layout, in two layouts laid end to end. */
  lemma {:induction false} LayoutRight<T>(fw: seq<seq<T>>, mr: seq<seq<T>>, j: nat, m: nat)
    requires forall k :: 0 <= k < |fw| ==> |fw[k]| == 8
    requires forall k :: 0 <= k < |mr| ==> |mr[k]| == 8
    requires j < |mr| && m < 8
    ensures (Flatten(fw) + Flatten(mr))[8 * |fw| + 8 * j + m] == mr[j][m]
  {
    FlattenAt(mr, j, m);
  }

  /** Every subkey of every schedule fits in 20 bits. */
  lemma FullScheduleFits(key: seq<byte>, size: nat)
    requires 8 * size <= |key|
    ensures forall s :: 0 <= s < 16 * size ==> Fits(FullSchedule(key, size)[s])
  {
    forall s | 0 <= s < 16 * size
      ensures Fits(FullSchedule(key, size)[s])
    {
      var i, mirror := SlotGroup(size, s);
      if mirror {
        MirrorSlotFits(key, size, i, s - Start(size, i, mirror));
      } else {
        ForwardSlotFits(key, size, i, s - Start(size, i, mirror));
      }
    }
  }

  /** The group that writes slot s: forward groups fill the lower half, mirror groups the upper. */
  lemma SlotGroup(size: nat, s: nat) returns (i: nat, mirror: bool)
    requires s < 16 * size
    ensures i < size && Start(size, i, mirror) <= s < Start(size, i, mirror) + 8
  {
    mirror := s >= 8 * size;
    i := if mirror then size - 1 - (s - 8 * size) / 8 else s / 8;
  }

  lemma ForwardSlotFits(key: seq<byte>, size: nat, i: nat, m: nat)
    requires 8 * size <= |key| && i < size && m < 8
    ensures Fits(FullSchedule(key, size)[8 * i + m])
  {
    FullScheduleForward(key, size, i, m);
    GroupFits(KeyRegs(key, i), KEYROT);
  }

  lemma MirrorSlotFits(key: seq<byte>, size: nat, i: nat, m: nat)
    requires 8 * size <= |key| && i < size && m < 8
    ensures Fits(FullSchedule(key, size)[16 * size - 8 - 8 * i + m])
  {
    FullScheduleMirror(key, size, i, m);
    GroupFits(RotN(KeyRegs(key, i), 120), KEYROT[8..]);
  }

  lemma ThinScheduleFits(key: seq<byte>)
    requires 8 <= |key|
    ensures forall s :: 0 <= s < 8 ==> Fits(ThinSchedule(key)[s])
  {
    GroupFits(KeyRegs(key, 0), KEYROT);
  }

  /** Thin-ICE's schedule is the first half of the one-level schedule. */
  lemma ThinIsFirstHalf(key: seq<byte>)
    requires 8 <= |key|
    ensures ThinSchedule(key) == FullSchedule(key, 1)[..8]
  {
  }

  /** The schedule depends on the first 8 * size key bytes only. */
  lemma FullScheduleKeyBytes(key: seq<byte>, key2: seq<byte>, size: nat)
    requires 8 * size <= |key| && 8 * size <= |key2| && key[..8 * size] == key2[..8 * size]
    ensures FullSchedule(key, size) == FullSchedule(key2, size)
  {
    forall i | 0 <= i < size
      ensures KeyRegs(key, i) == KeyRegs(key2, i)
    {
      forall b | 8 * i <= b < 8 * i + 8
        ensures key[b] == key2[b]
      {
        assert key[..8 * size][b] == key2[..8 * size][b];
      }
    }
    assert ForwardGroups(key, size) == ForwardGroups(key2, size);
    assert MirrorGroups(key, size) == MirrorGroups(key2, size);
  }

  // ---- key_set's loops ----

  /** The registers of level i, loaded as key_set does: `kb[3 - j]` from key bytes 8i + 2j and 8i + 2j + 1. */
  method LoadRegs(key: seq<byte>, i: nat) returns (kb: array<bv16>)
    requires 8 * i + 8 <= |key|
    ensures fresh(kb) && kb.Length == 4 && kb[..] == KeyRegs(key, i)
  {
    kb := new bv16[4](_ => 0);
    var j := 0;
    while j < 4
      invariant j <= 4
      invariant forall t :: 3 - j < t < 4 ==> kb[t] == KeyRegs(key, i)[t]
    {
      kb[3 - j] := Be16(key[8 * i + 2 * j], key[8 * i + 2 * j + 1]);
      j := j + 1;
    }
  }

  /** The slots levels 0 .. i-1 own (8j .. 8j + 7 and their mirrors) hold what `full` holds there. */
  ghost predicate Built<T>(ks: seq<T>, full: seq<T>, size: nat, i: nat) {
    |ks| == |full| == 16 * size &&
    forall s :: 0 <= s < 16 * size && (s < 8 * i || 16 * size - 8 * i <= s) ==> ks[s] == full[s]
  }

  /** Level i writing its forward group, then its mirror group, extends what is built by level i. */
  lemma BuiltStep<T>(ks0: seq<T>, ks1: seq<T>, ks2: seq<T>, full: seq<T>, fg: seq<T>, mg: seq<T>, size: nat, i: nat)
    requires i < size && |fg| == 8 && |mg| == 8 && Built(ks0, full, size, i)
    requires forall m :: 0 <= m < 8 ==> full[8 * i + m] == fg[m] && full[16 * size - 8 - 8 * i + m] == mg[m]
    requires Placed(ks1, ks0, 8 * i, fg, 8)
    requires Placed(ks2, ks1, 16 * size - 8 - 8 * i, mg, 8)
    ensures Built(ks2, full, size, i + 1)
  {
    forall s | 0 <= s < 16 * size && (s < 8 * (i + 1) || 16 * size - 8 * (i + 1) <= s)
      ensures ks2[s] == full[s]
    {
      if 8 * i <= s < 8 * i + 8 {
        assert full[8 * i + (s - 8 * i)] == fg[s - 8 * i];
      } else if 16 * size - 8 - 8 * i <= s < 16 * size - 8 * i {
        assert full[16 * size - 8 - 8 * i + (s - (16 * size - 8 - 8 * i))] == mg[s - (16 * size - 8 - 8 * i)];
      }
    }
  }

  /** Once every level is built the schedule is complete. */
  lemma BuiltAll<T>(ks: seq<T>, full: seq<T>, size: nat)
    requires Built(ks, full, size, size)
    ensures ks == full
  {
  }

  /** Each call of key_sched_build in the level loop writes eight subkeys. */
  lemma KeyrotHalves()
    ensures Taken(KEYROT) == 8 && Taken(KEYROT[8..16]) == 8
  {
  }

  /** What key_sched_build writes from the level's own registers with all of KEYROT is the forward group. */
  lemma ForwardIs(key: seq<byte>, i: nat)
    requires 8 * i + 8 <= |key|
    ensures Group(KeyRegs(key, i), KEYROT) == ForwardGroup(key, i) && Taken(KEYROT) == 8
  {
  }

  /** What key_sched_build writes with `KEYROT[8..16]` from the registers the forward group left behind is the mirror group. */
  lemma MirrorIs(key: seq<byte>, i: nat, mid: seq<bv16>)
    requires 8 * i + 8 <= |key| && mid == RotN(KeyRegs(key, i), 15 * Taken(KEYROT))
    ensures Group(mid, KEYROT[8..16]) == MirrorGroup(key, i) && Taken(KEYROT[8..16]) == 8
  {
    KeyrotHalves();
    assert KEYROT[8..16] == KEYROT[8..];
  }

  /** The slots of level i in the full schedule hold its two groups. */
  lemma LevelSlots(key: seq<byte>, size: nat, i: nat)
    requires 8 * size <= |key| && i < size
    ensures forall m :: 0 <= m < 8 ==>
      FullSchedule(key, size)[8 * i + m] == ForwardGroup(key, i)[m] &&
      FullSchedule(key, size)[16 * size - 8 - 8 * i + m] == MirrorGroup(key, i)[m]
  {
    forall m | 0 <= m < 8
      ensures FullSchedule(key, size)[8 * i + m] == ForwardGroup(key, i)[m]
      ensures FullSchedule(key, size)[16 * size - 8 - 8 * i + m] == MirrorGroup(key, i)[m]
    {
      FullScheduleForward(key, size, i, m);
      FullScheduleMirror(key, size, i, m);
    }
  }

  /** One pass of key_set's level loop: level i's forward group at 8i, then its mirror group at rounds - 8 - 8i. */
  method BuildLevel(keysched: array<Subkey>, key: seq<byte>, size: nat, rounds: nat, i: nat)
    requires rounds == 16 * size && keysched.Length == rounds && 8 * size <= |key| && i < size
    requires Built(keysched[..], FullSchedule(key, size), size, i)
    modifies keysched
    ensures Built(keysched[..], FullSchedule(key, size), size, i + 1)
  {
    var kb := LoadRegs(key, i);
    ghost var ks0 := keysched[..];
    KeyrotHalves();
    KeySchedBuild(keysched, kb, 8 * i, KEYROT);
    ghost var ks1, mid := keysched[..], kb[..];
    KeySchedBuild(keysched, kb, rounds - 8 - 8 * i, KEYROT[8..16]);
    LevelPlaced(key, size, i, ks0, ks1, mid, keysched[..]);
  }

  /** What the two calls of key_sched_build for level i write, from the level's registers and then from where they were left, extends what is built by that level. */
  lemma LevelPlaced(key: seq<byte>, size: nat, i: nat, ks0: seq<Subkey>, ks1: seq<Subkey>, mid: seq<bv16>, ks2: seq<Subkey>)
    requires 8 * size <= |key| && i < size && Built(ks0, FullSchedule(key, size), size, i)
    requires Placed(ks1, ks0, 8 * i, Group(KeyRegs(key, i), KEYROT), Taken(KEYROT))
    requires mid == RotN(KeyRegs(key, i), 15 * Taken(KEYROT))
    requires Placed(ks2, ks1, 16 * size - 8 - 8 * i, Group(mid, KEYROT[8..16]), Taken(KEYROT[8..16]))
    ensures Built(ks2, FullSchedule(key, size), size, i + 1)
  {
    ForwardIs(key, i);
    MirrorIs(key, i, mid);
    LevelBuilt(key, size, i, ks0, ks1, ks2);
  }

  /** The two calls of key_sched_build for level i extend what is built by that level. */
  lemma LevelBuilt(key: seq<byte>, size: nat, i: nat, ks0: seq<Subkey>, ks1: seq<Subkey>, ks2: seq<Subkey>)
    requires 8 * size <= |key| && i < size
    requires Built(ks0, FullSchedule(key, size), size, i)
    requires Placed(ks1, ks0, 8 * i, ForwardGroup(key, i), 8)
    requires Placed(ks2, ks1, 16 * size - 8 - 8 * i, MirrorGroup(key, i), 8)
    ensures Built(ks2, FullSchedule(key, size), size, i + 1)
  {
    LevelSlots(key, size, i);
    BuiltStep(ks0, ks1, ks2, FullSchedule(key, size), ForwardGroup(key, i), MirrorGroup(key, i), size, i);
  }

  /**
    * The level loop of key_set: for each level, load its registers, write the
    * forward group at 8i, then the mirror group at rounds - 8 - 8i with the
    * registers where the forward group left them.
    */
  method BuildLevels(keysched: array<Subkey>, key: seq<byte>, size: nat, rounds: nat)
    requires rounds == 16 * size && keysched.Length == rounds && 8 * size <= |key|
    modifies keysched
    ensures keysched[..] == FullSchedule(key, size)
  {
    ghost var full := FullSchedule(key, size);
    var i := 0;
    while i < size
      invariant i <= size
      invariant Built(keysched[..], full, size, i)
    {
      BuildLevel(keysched, key, size, rounds, i);
      i := i + 1;
    }
    BuiltAll(keysched[..], full, size);
  }

  /** Thin-ICE's branch of key_set: one group from the first eight key bytes fills all eight slots. */
  method BuildThin(keysched: array<Subkey>, key: seq<byte>)
    requires keysched.Length == 8 && 8 <= |key|
    modifies keysched
    ensures keysched[..] == ThinSchedule(key)
  {
    var kb := LoadRegs(key, 0);
    KeySchedBuild(keysched, kb, 0, KEYROT);
  }

  // ---- The schedule key_set builds ----

  /** The schedule of a key: Thin-ICE's eight subkeys when size is 1 and there are 8 rounds, else the full one. */
  function Schedule(key: seq<byte>, size: nat, rounds: nat): (ks: seq<Subkey>)
    requires Shape(size, rounds) && 8 * size <= |key|
    ensures |ks| == rounds
  {
    if size == 1 && rounds == 8 then ThinSchedule(key) else FullSchedule(key, size)
  }

  /** Every subkey of a schedule fits in 20 bits. */
  lemma ScheduleFits(key: seq<byte>, size: nat, rounds: nat)
    requires Shape(size, rounds) && 8 * size <= |key|
    ensures forall s :: 0 <= s < rounds ==> Fits(Schedule(key, size, rounds)[s])
  {
    if size == 1 && rounds == 8 {
      ThinScheduleFits(key);
    } else {
      FullScheduleFits(key, size);
    }
  }

  /** For a valid shape, testing `rounds == 8` alone (as the reference port does) picks the same branch as `size == 1 && rounds == 8`. */
  lemma ThinTestsAgree(size: nat, rounds: nat)
    requires Shape(size, rounds)
    ensures (size == 1 && rounds == 8) == (rounds == 8)
  {
  }

  /**
    * The shared body of both engines' key_set: the thin branch when `thin`,
    * else the level loop. The fast engine passes `size == 1 && rounds == 8`,
    * the reference port `rounds == 8`.
    */
  method SetKey(keysched: array<Subkey>, key: seq<byte>, size: nat, rounds: nat, thin: bool)
    requires Shape(size, rounds) && keysched.Length == rounds && 8 * size <= |key|
    requires thin == (size == 1 && rounds == 8)
    modifies keysched
    ensures keysched[..] == Schedule(key, size, rounds)
  {
    if thin {
      BuildThin(keysched, key);
    } else {
      BuildLevels(keysched, key, size, rounds);
    }
  }
}
