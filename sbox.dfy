/**
  * The four ICE S-boxes. Entry i of table t is gf_exp7, under the modulus
  * selected by the row bits of i, of the column bits of i XORed with a
  * per-row constant; the byte is moved to lane t of a word and sent through
  * the P-box. Both engines fill their tables with the same loop.
  */
module SBoxes {

  import opened Words
  import opened GaloisField
  import opened PBox

  type Table = t: nat | t < 4
  type Index = i: nat | i < 1024

  /** ICE_SMOD[t][row]: the field modulus of each table and row (row 3 for any row above 2). */
  function Smod(t: Table, row: bv32): bv32 {
    match t
    case 0 => if row == 0 then 333 else if row == 1 then 313 else if row == 2 then 505 else 369
    case 1 => if row == 0 then 379 else if row == 1 then 375 else if row == 2 then 319 else 391
    case 2 => if row == 0 then 361 else if row == 1 then 445 else if row == 2 then 451 else 397
    case _ => if row == 0 then 397 else if row == 1 then 425 else if row == 2 then 395 else 505
  }

  /** ICE_SXOR[t][row]: the constant XORed into the column of each table and row. */
  function Sxor(t: Table, row: bv32): bv32 {
    match t
    case 0 => if row == 0 then 0x83 else if row == 1 then 0x85 else if row == 2 then 0x9b else 0xcd
    case 1 => if row == 0 then 0xcc else if row == 1 then 0xa7 else if row == 2 then 0xad else 0x41
    case 2 => if row == 0 then 0x4b else if row == 1 then 0x2e else if row == 2 then 0xd4 else 0x33
    case _ => if row == 0 then 0xea else if row == 1 then 0xcb else if row == 2 then 0x2e else 0x04
  }

  /** Every modulus is a degree-8 polynomial and every XOR constant a byte. */
  lemma ConstantsInRange(t: Table, row: bv32)
    ensures IsModulus(Smod(t, row)) && IsByte(Sxor(t, row))
  {
  }

  /** The column of an index: bits 1..8. */
  function Col(i: bv32): bv32 {
    (i >> 1) & 0xff
  }

  /** The row of an index: bit 0 and bit 9. */
  function Row(i: bv32): bv32 {
    (i & 0x1) | ((i & 0x200) >> 8)
  }

  /** The index holding a given (row, column) cell. */
  function Cell(row: bv32, col: bv32): bv32 {
    (row & 1) | (col << 1) | ((row & 2) << 8)
  }

  /** Row and column are in range for every index. */
  lemma RowColRange(i: bv32)
    ensures Row(i) < 4 && Col(i) < 256
  {
  }

  /** An index below 1024 is recovered from its row and column ... */
  lemma CellOfRowCol(i: bv32)
    requires i < 1024
    ensures Cell(Row(i), Col(i)) == i
  {
  }

  /** ... and each of the 4 x 256 cells has its own index, so the 1024 entries cover every cell once. */
  lemma RowColOfCell(row: bv32, col: bv32)
    requires row < 4 && col < 256
    ensures Cell(row, col) < 1024
    ensures Row(Cell(row, col)) == row && Col(Cell(row, col)) == col
  {
  }

  /** The gf_exp7 value that entry i of table t is built from: a byte. */
  function Power(t: Table, i: Index): bv32 {
    var w := i as bv32;
    GfExp7(Col(w) ^ Sxor(t, Row(w)), Smod(t, Row(w)))
  }

  /** The word sent through the P-box for entry i of table t: the power moved to lane t. */
  function Lane(t: Table, i: Index): bv32 {
    ToLane(t, Power(t, i))
  }

  /** Moves a byte to lane t: table 0 feeds the top byte, table 3 the bottom one. */
  function ToLane(t: Table, x: bv32): bv32 {
    match t
    case 0 => x << 24
    case 1 => x << 16
    case 2 => x << 8
    case _ => x
  }

  /** Entry i of table t. */
  function Entry(t: Table, i: Index): bv32 {
    Permuted(Lane(t, i))
  }

  /** A table as the engines hold it: four rows of 1024 words, all filled in. */
  ghost predicate Filled(s: array2<bv32>)
    reads s
  {
    s.Length0 == 4 && s.Length1 == 1024 && FilledUpTo(s, 1024)
  }

  /** The entries below n of the four tables are in place. */
  ghost predicate FilledUpTo(s: array2<bv32>, n: nat)
    requires s.Length0 == 4 && s.Length1 == 1024 && n <= 1024
    reads s
  {
    forall t: Table, i: Index {:trigger Entry(t, i)} :: i < n ==> s[t, i] == Entry(t, i)
  }

  /** The entries below index i are in place, and those at index i of the tables below t. */
  ghost predicate FilledBefore(s: array2<bv32>, i: Index, t: nat)
    requires s.Length0 == 4 && s.Length1 == 1024 && t <= 4
    reads s
  {
    forall u: Table, k: Index {:trigger Entry(u, k)} :: k < i || (k == i && u < t) ==> s[u, k] == Entry(u, k)
  }

  /** One entry of one table: the P-box image of the lane word. */
  method FillEntry(s: array2<bv32>, t: Table, i: Index)
    requires s.Length0 == 4 && s.Length1 == 1024 && FilledBefore(s, i, t)
    modifies s
    ensures FilledBefore(s, i, t + 1)
  {
    s[t, i] := Perm32(Lane(t, i));
  }

  /** One turn of sboxes_init: the entries at index i of the four tables. */
  method FillIndex(s: array2<bv32>, i: Index)
    requires s.Length0 == 4 && s.Length1 == 1024 && FilledUpTo(s, i)
    modifies s
    ensures FilledUpTo(s, i + 1)
  {
    assert FilledBefore(s, i, 0);
    FillEntry(s, 0, i);
    FillEntry(s, 1, i);
    FillEntry(s, 2, i);
    FillEntry(s, 3, i);
    assert FilledBefore(s, i, 4);
  }

  /** sboxes_init: fills index 0 to 1023 of the four tables. */
  method Init(s: array2<bv32>)
    requires s.Length0 == 4 && s.Length1 == 1024
    modifies s
    ensures Filled(s)
  {
    var i := 0;
    while i < 1024
      invariant i <= 1024
      invariant FilledUpTo(s, i)
    {
      FillIndex(s, i);
      i := i + 1;
    }
  }

  /** The bits of lane t: the byte that table t feeds. */
  function LaneMask(t: Table): bv32 {
    ToLane(t, 0xff)
  }

  /** A byte moved to lane t stays inside that lane's mask. */
  lemma ToLaneInMask(t: Table, x: bv32)
    requires x < 256
    ensures ToLane(t, x) & LaneMask(t) == ToLane(t, x)
  {
  }

  /** Every power is a field element: its argument and modulus are in range. */
  lemma PowerByte(t: Table, i: Index)
    ensures IsByte(Power(t, i))
  {
    var w := i as bv32;
    RowColRange(w);
    ConstantsInRange(t, Row(w));
    XorBytes(Col(w), Sxor(t, Row(w)));
    GfExp7Byte(Col(w) ^ Sxor(t, Row(w)), Smod(t, Row(w)));
  }

  /** The lane word of table t has its bits in byte lane 3 - t only. */
  lemma LaneBits(t: Table, i: Index, j: Position)
    requires Bit(Lane(t, i), j)
    ensures Bit(LaneMask(t), j)
  {
    PowerByte(t, i);
    ToLaneInMask(t, Power(t, i));
    BitInMask(Lane(t, i), LaneMask(t), j);
  }

  /**
    * A set bit of an entry of table t is the P-box image of an input bit in
    * byte lane 3 - t; so the four tables set disjoint bits, and ORing their
    * outputs, as the round function does, loses nothing.
    */
  lemma EntryBits(t: Table, i: Index, k: Position)
    requires Bit(Entry(t, i), k)
    ensures Bit(LaneMask(t), Inv(k))
  {
    PermutedBit(Lane(t, i), k);
    LaneBits(t, i, Inv(k));
  }

  lemma LaneMasksDisjoint(t: Table, u: Table)
    requires t != u
    ensures LaneMask(t) & LaneMask(u) == 0
  {
  }

  /**
    * Entries of two different tables never share a set bit, whatever their
    * indices: the four lookups of the round function fill disjoint bits.
    */
  lemma EntriesDisjoint(t: Table, u: Table, i: Index, i2: Index, k: Position)
    requires Bit(Entry(t, i), k) && Bit(Entry(u, i2), k)
    ensures t == u
  {
    EntryBits(t, i, k);
    EntryBits(u, i2, k);
    if t != u {
      LaneMasksDisjoint(t, u);
      BitAnd(LaneMask(t), LaneMask(u), Inv(k));
      BitZero(Inv(k));
    }
  }

  /** Moving a byte to its lane keeps its set bits: the other three bytes stay clear. */
  lemma LanePopCount(t: Table, x: bv32)
    requires x < 256
    ensures PopCount(ToLane(t, x)) == PopCount(x)
  {
    LaneCount(3, x);
    LaneCount(t, x);
  }

  /** The set bits of a byte moved to lane t are those of its low eight bits. */
  lemma LaneCount(t: Table, x: bv32)
    requires x < 256
    ensures PopCount(ToLane(t, x)) == CountBits(x, 8)
  {
    LaneBytes(t, x);
    LaneShifts(ToLane(t, x), t, x);
    OneLane(ToLane(t, x), x, 24 - 8 * t);
  }

  /** The facts of LaneBytes about a word y, restated with single shifts. */
  lemma LaneShifts(y: bv32, t: Table, x: bv32)
    requires if t == 3 then y == x else And(y, 0xff) == 0
    requires if t == 2 then y >> 8 == x else And(y >> 8, 0xff) == 0
    requires if t == 1 then y >> 16 == x else And(y >> 16, 0xff) == 0
    requires if t == 0 then y >> 24 == x else And(y >> 24, 0xff) == 0
    ensures if t == 3 then ShiftN(y, 0) == x else And(y, 0xff) == 0
    ensures if t == 2 then ShiftN(y, 8) == x else And(ShiftN(y, 8), 0xff) == 0
    ensures if t == 1 then ShiftN(y, 16) == x else And(ShiftN(y, 16), 0xff) == 0
    ensures if t == 0 then ShiftN(y, 24) == x else And(ShiftN(y, 24), 0xff) == 0
  {
    ShiftNBytes(y);
    assert ShiftN(y, 0) == y;
  }

  /** The bytes of a byte moved to lane t: the byte itself in lane t, and clear elsewhere. */
  lemma LaneBytes(t: Table, x: bv32)
    requires x < 256
    ensures if t == 3 then ToLane(t, x) == x else And(ToLane(t, x), 0xff) == 0
    ensures if t == 2 then ToLane(t, x) >> 8 == x else And(ToLane(t, x) >> 8, 0xff) == 0
    ensures if t == 1 then ToLane(t, x) >> 16 == x else And(ToLane(t, x) >> 16, 0xff) == 0
    ensures if t == 0 then ToLane(t, x) >> 24 == x else And(ToLane(t, x) >> 24, 0xff) == 0
  {
  }

  /** A word whose only nonzero byte, k places up, is x has the set bits of x. */
  lemma OneLane(y: bv32, x: bv32, k: nat)
    requires k == 0 || k == 8 || k == 16 || k == 24
    requires ShiftN(y, k) == x
    requires k != 0 ==> And(y, 0xff) == 0
    requires k != 8 ==> And(ShiftN(y, 8), 0xff) == 0
    requires k != 16 ==> And(ShiftN(y, 16), 0xff) == 0
    requires k != 24 ==> And(ShiftN(y, 24), 0xff) == 0
    ensures PopCount(y) == CountBits(x, 8)
  {
    ByteCounts(y);
    if k != 0 { ClearByte(y); }
    if k != 8 { ClearByte(ShiftN(y, 8)); }
    if k != 16 { ClearByte(ShiftN(y, 16)); }
    if k != 24 { ClearByte(ShiftN(y, 24)); }
  }

  /** An entry has as many set bits as the gf_exp7 value it was built from. */
  lemma EntryPopCount(t: Table, i: Index)
    ensures PopCount(Entry(t, i)) == PopCount(Lane(t, i))
    ensures PopCount(Entry(t, i)) == PopCount(Power(t, i))
  {
    PermPreservesPopCount(Lane(t, i));
    PowerByte(t, i);
    LanePopCount(t, Power(t, i));
  }
}
