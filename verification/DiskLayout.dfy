/** The disk image: constants and macros of the block layer, bytes, bits and 32-bit words. */
module DiskLayout {

  const BLOCK_SIZE := 16384
  const BLOCK_NUM := 2048
  const INODE_NUM := 1024
  const IPB := 1
  const BPB := 131072
  const NDIRECT := 100
  const NINDIRECT := 4096
  const MAXFILE := 4196
  const WORD := 0x1_0000_0000

  type Byte = x: int | 0 <= x < 256
  type Word = x: int | 0 <= x < WORD
  type Block = b: seq<Byte> | |b| == BLOCK_SIZE witness seq(BLOCK_SIZE, _ => 0)
  type Image = seq<Block>

  function Zero(): Block {
    seq(BLOCK_SIZE, _ => 0)
  }

  // ----- layout macros -----

  function IBlock(i: nat, nblocks: nat): nat {
    nblocks / BPB + i / IPB + 3
  }

  function BBlock(b: nat): nat {
    b / BPB + 2
  }

  function FirstData(nblocks: nat, ninodes: nat): nat {
    IBlock(ninodes, nblocks) + 1
  }

  /** For every number of blocks and inodes: the bitmap blocks of all blocks come before the
      inode table, no two inodes share a block, and the table ends before the data area. */
  lemma LayoutDisjoint(nblocks: nat, ninodes: nat, b: nat, i: nat, j: nat)
    requires b <= nblocks && i < ninodes && j < ninodes
    ensures 2 <= BBlock(b) < IBlock(i, nblocks) < FirstData(nblocks, ninodes)
    ensures i != j ==> IBlock(i, nblocks) != IBlock(j, nblocks)
  {
  }

  // ----- bits: position k of a byte counts from its most significant bit -----

  function Mask(k: nat): Byte
    requires k < 8
  {
    [128, 64, 32, 16, 8, 4, 2, 1][k]
  }

  /** `(byte >> (7 - k)) & 1`. */
  predicate Bit(b: Byte, k: nat)
    requires k < 8
  {
    (b / Mask(k)) % 2 == 1
  }

  /** `byte | (1 << (7 - k))`. */
  function SetBit(b: Byte, k: nat): Byte
    requires k < 8
  {
    if Bit(b, k) then b else b + Mask(k)
  }

  /** `byte & ~(1 << (7 - k))`. */
  function ClearBit(b: Byte, k: nat): Byte
    requires k < 8
  {
    if Bit(b, k) then b - Mask(k) else b
  }

  /** Eight binary digits, most significant first. */
  ghost predicate Digits(e: seq<int>) {
    |e| == 8 && forall k :: 0 <= k < 8 ==> 0 <= e[k] <= 1
  }

  ghost function Value(e: seq<int>): int
    requires Digits(e)
  {
    128 * e[0] + 64 * e[1] + 32 * e[2] + 16 * e[3] + 8 * e[4] + 4 * e[5] + 2 * e[6] + e[7]
  }

  lemma DigitsOf(b: Byte) returns (e: seq<int>)
    ensures Digits(e) && Value(e) == b
  {
    var b1 := b / 2;
    var b2 := b1 / 2;
    var b3 := b2 / 2;
    var b4 := b3 / 2;
    var b5 := b4 / 2;
    var b6 := b5 / 2;
    var b7 := b6 / 2;
    e := [b7, b6 % 2, b5 % 2, b4 % 2, b3 % 2, b2 % 2, b1 % 2, b % 2];
  }

  lemma BitIsDigit(e: seq<int>, k: nat)
    requires Digits(e) && k < 8
    ensures 0 <= Value(e) < 256 && (Bit(Value(e), k) <==> e[k] == 1)
  {
    var v := Value(e);
    var high :=
      [0, e[0], 2 * e[0] + e[1], 4 * e[0] + 2 * e[1] + e[2], 8 * e[0] + 4 * e[1] + 2 * e[2] + e[3],
       16 * e[0] + 8 * e[1] + 4 * e[2] + 2 * e[3] + e[4],
       32 * e[0] + 16 * e[1] + 8 * e[2] + 4 * e[3] + 2 * e[4] + e[5],
       64 * e[0] + 32 * e[1] + 16 * e[2] + 8 * e[3] + 4 * e[4] + 2 * e[5] + e[6]][k];
    assert v / Mask(k) == 2 * high + e[k];
  }

  lemma ReplaceDigit(e: seq<int>, k: nat, d: int)
    requires Digits(e) && k < 8 && 0 <= d <= 1
    ensures Digits(e[k := d]) && Value(e[k := d]) == Value(e) + (d - e[k]) * Mask(k)
  {
  }

  lemma SetBitAt(b: Byte, k: nat, j: nat)
    requires k < 8 && j < 8
    ensures Bit(SetBit(b, k), j) <==> j == k || Bit(b, j)
  {
    var e := DigitsOf(b);
    BitIsDigit(e, k);
    BitIsDigit(e, j);
    ReplaceDigit(e, k, 1);
    BitIsDigit(e[k := 1], j);
  }

  lemma ClearBitAt(b: Byte, k: nat, j: nat)
    requires k < 8 && j < 8
    ensures Bit(ClearBit(b, k), j) <==> j != k && Bit(b, j)
  {
    var e := DigitsOf(b);
    BitIsDigit(e, k);
    BitIsDigit(e, j);
    ReplaceDigit(e, k, 0);
    BitIsDigit(e[k := 0], j);
  }
}
