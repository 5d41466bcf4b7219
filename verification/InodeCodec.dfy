/** Inodes and tables of block ids as they lie in the bytes of a block. */
module InodeCodec {
  import opened DiskLayout

  /** `struct inode`.  `kind` is the short field `type`; 0 marks a free inode. */
  datatype InodeRec = Inode(kind: nat, size: Word, atime: Word, mtime: Word, ctime: Word, blocks: seq<Word>)

  type Inode = i: InodeRec | i.kind < 65536 && |i.blocks| == NDIRECT + 1
    witness Inode(0, 0, 0, 0, 0, seq(NDIRECT + 1, _ => 0))

  const INODE_WORDS := 106

  // ----- little-endian words -----

  function Scale(k: nat): nat
    requires k < 4
  {
    [1, 256, 65536, 16777216][k]
  }

  function LittleEndian(v: Word, k: nat): Byte
    requires k < 4
  {
    (v / Scale(k)) % 256
  }

  function WordAt(b: seq<Byte>, i: nat): Word
    requires 4 * i + 4 <= |b|
  {
    var b0: int, b1: int, b2: int, b3: int := b[4 * i], b[4 * i + 1], b[4 * i + 2], b[4 * i + 3];
    b0 + 256 * b1 + 65536 * b2 + 16777216 * b3
  }

  function Bytes(ws: seq<Word>): (r: seq<Byte>)
    ensures |r| == 4 * |ws|
  {
    seq(4 * |ws|, k requires 0 <= k < 4 * |ws| => LittleEndian(ws[k / 4], k % 4))
  }

  lemma WordOfBytes(v: Word)
    ensures var b0: int, b1: int := LittleEndian(v, 0), LittleEndian(v, 1);
            var b2: int, b3: int := LittleEndian(v, 2), LittleEndian(v, 3);
            v == b0 + 256 * b1 + 65536 * b2 + 16777216 * b3
  {
    var v1 := v / 256;
    var v2 := v1 / 256;
    var v3 := v2 / 256;
    assert v2 == v / 65536;
    assert v3 == v / 16777216;
  }

  lemma WordAtBytes(ws: seq<Word>, rest: seq<Byte>, i: nat)
    requires i < |ws|
    ensures WordAt(Bytes(ws) + rest, i) == ws[i]
  {
    WordOfBytes(ws[i]);
    var b := Bytes(ws);
    assert b[4 * i + 0] == LittleEndian(ws[i], 0) && b[4 * i + 1] == LittleEndian(ws[i], 1);
    assert b[4 * i + 2] == LittleEndian(ws[i], 2) && b[4 * i + 3] == LittleEndian(ws[i], 3);
  }

  // ----- a block as a table of ids -----

  function TableOf(b: Block): (t: seq<Word>)
    ensures |t| == NINDIRECT
  {
    seq(NINDIRECT, i requires 0 <= i < NINDIRECT => WordAt(b, i))
  }

  function TableBlock(t: seq<Word>): Block
    requires |t| == NINDIRECT
  {
    Bytes(t)
  }

  lemma TableRoundTrip(t: seq<Word>)
    requires |t| == NINDIRECT
    ensures TableOf(TableBlock(t)) == t
  {
    forall i | 0 <= i < NINDIRECT ensures TableOf(TableBlock(t))[i] == t[i] {
      WordAtBytes(t, [], i);
      assert Bytes(t) + [] == Bytes(t);
    }
  }

  // ----- a block as the home of one inode -----

  function Words(ino: Inode): (ws: seq<Word>)
    ensures |ws| == INODE_WORDS
  {
    [ino.kind, ino.size, ino.atime, ino.mtime, ino.ctime] + ino.blocks
  }

  /** `*ino_disk = *ino`: the first bytes of the block change, the rest stay. */
  function InodeInto(b: Block, ino: Inode): Block {
    Bytes(Words(ino)) + b[4 * INODE_WORDS..]
  }

  function InodeOf(b: Block): Inode {
    Inode(WordAt(b, 0) % 65536, WordAt(b, 1), WordAt(b, 2), WordAt(b, 3), WordAt(b, 4),
          seq(NDIRECT + 1, i requires 0 <= i < NDIRECT + 1 => WordAt(b, 5 + i)))
  }

  lemma WordsInto(b: Block, ino: Inode, i: nat)
    requires i < INODE_WORDS
    ensures WordAt(InodeInto(b, ino), i) == Words(ino)[i]
  {
    WordAtBytes(Words(ino), b[4 * INODE_WORDS..], i);
  }

  /** get_inode reads back what put_inode stored. */
  lemma InodeRoundTrip(b: Block, ino: Inode)
    ensures InodeOf(InodeInto(b, ino)) == ino
  {
    var r := InodeOf(InodeInto(b, ino));
    WordsInto(b, ino, 0);
    WordsInto(b, ino, 1);
    WordsInto(b, ino, 2);
    WordsInto(b, ino, 3);
    WordsInto(b, ino, 4);
    forall i | 0 <= i < NDIRECT + 1 ensures r.blocks[i] == ino.blocks[i] { WordsInto(b, ino, 5 + i); }
    assert r.blocks == ino.blocks;
  }
}
