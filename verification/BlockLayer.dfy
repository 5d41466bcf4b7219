/** The block layer: the disk, the bitmap of used blocks, allocation and release. */
module BlockLayer {
  import opened DiskLayout

  // ----- the bitmap inside one block -----

  predicate BitAt(b: Block, i: nat)
    requires i < BPB
  {
    Bit(b[i / 8], i % 8)
  }

  function Marking(b: Block, i: nat): Block
    requires i < BPB
  {
    b[i / 8 := SetBit(b[i / 8], i % 8)]
  }

  function Unmarking(b: Block, i: nat): Block
    requires i < BPB
  {
    b[i / 8 := ClearBit(b[i / 8], i % 8)]
  }

  lemma MarkingAt(b: Block, i: nat, j: nat)
    requires i < BPB && j < BPB
    ensures BitAt(Marking(b, i), j) <==> j == i || BitAt(b, j)
  {
    SetBitAt(b[i / 8], i % 8, j % 8);
  }

  lemma UnmarkingAt(b: Block, i: nat, j: nat)
    requires i < BPB && j < BPB
    ensures BitAt(Unmarking(b, i), j) <==> j != i && BitAt(b, j)
  {
    ClearBitAt(b[i / 8], i % 8, j % 8);
  }

  /** Setting a clear bit and clearing it again restores every byte. */
  lemma UnmarkingMarking(b: Block, i: nat)
    requires i < BPB && !BitAt(b, i)
    ensures Unmarking(Marking(b, i), i) == b
  {
    SetBitAt(b[i / 8], i % 8, i % 8);
  }

  // ----- the bitmap of an image -----

  predicate Marked(img: Image, b: nat)
    requires BBlock(b) < |img|
  {
    BitAt(img[BBlock(b)], b % BPB)
  }

  function Mark(img: Image, b: nat): Image
    requires BBlock(b) < |img|
  {
    img[BBlock(b) := Marking(img[BBlock(b)], b % BPB)]
  }

  function Unmark(img: Image, b: nat): Image
    requires BBlock(b) < |img|
  {
    img[BBlock(b) := Unmarking(img[BBlock(b)], b % BPB)]
  }

  lemma SameBit(b: nat, c: nat)
    ensures BBlock(b) == BBlock(c) && b % BPB == c % BPB ==> b == c
  {
  }

  lemma MarkedMark(img: Image, b: nat, c: nat)
    requires BBlock(b) < |img| && BBlock(c) < |img|
    ensures Marked(Mark(img, b), c) <==> c == b || Marked(img, c)
  {
    SameBit(b, c);
    if BBlock(b) == BBlock(c) { MarkingAt(img[BBlock(b)], b % BPB, c % BPB); }
  }

  lemma MarkedUnmark(img: Image, b: nat, c: nat)
    requires BBlock(b) < |img| && BBlock(c) < |img|
    ensures Marked(Unmark(img, b), c) <==> c != b && Marked(img, c)
  {
    SameBit(b, c);
    if BBlock(b) == BBlock(c) { UnmarkingAt(img[BBlock(b)], b % BPB, c % BPB); }
  }

  /** Freeing the block just allocated restores the whole image. */
  lemma FreeUndoesAlloc(img: Image, b: nat)
    requires BBlock(b) < |img| && !Marked(img, b)
    ensures Unmark(Mark(img, b), b) == img
  {
    UnmarkingMarking(img[BBlock(b)], b % BPB);
  }

  /** Bits in the bitmap blocks that alloc_block scans; at least one per block of the disk. */
  function BitmapEnd(nblocks: nat): nat {
    (nblocks / BPB + 1) * BPB
  }

  /** b is the least unmarked bit at or above the first data block. */
  ghost predicate FirstFree(img: Image, nblocks: nat, ninodes: nat, b: nat)
    requires BBlock(nblocks) < |img|
  {
    && FirstData(nblocks, ninodes) <= b < BitmapEnd(nblocks)
    && !Marked(img, b)
    && forall c :: FirstData(nblocks, ninodes) <= c < b ==> Marked(img, c)
  }

  ghost predicate NoneFree(img: Image, nblocks: nat, ninodes: nat)
    requires BBlock(nblocks) < |img|
  {
    forall c :: FirstData(nblocks, ninodes) <= c < BitmapEnd(nblocks) ==> Marked(img, c)
  }

  /** The inner loop of alloc_block: the first clear bit of a bitmap block, or BPB. */
  method ScanBlock(bitmap: Block, from: nat) returns (index: nat)
    requires from < BPB
    ensures from <= index <= BPB
    ensures forall j :: from <= j < index ==> BitAt(bitmap, j)
    ensures index < BPB ==> !BitAt(bitmap, index)
  {
    index := from;
    while index < BPB
      invariant from <= index <= BPB
      invariant forall j :: from <= j < index ==> BitAt(bitmap, j)
    {
      var bytePos := index / 8;
      var bitPos := index - 8 * bytePos;
      if !Bit(bitmap[bytePos], bitPos) {
        return;
      }
      index := index + 1;
    }
  }

  class BlockManager {
    const blocks: array<Block>
    ghost var img: Image  // what blocks holds
    const nblocks: nat
    const ninodes: nat

    ghost predicate Valid()
      reads this, blocks
    {
      img == blocks[..] && BBlock(nblocks) < blocks.Length
    }

    /** A zeroed disk with the superblock of the source's constants. */
    constructor ()
      ensures Valid() && nblocks == BLOCK_NUM && ninodes == INODE_NUM && blocks.Length == BLOCK_NUM
      ensures fresh(blocks)
      ensures |img| == BLOCK_NUM && forall b :: 0 <= b < BLOCK_NUM ==> img[b] == Zero()
    {
      nblocks, ninodes := BLOCK_NUM, INODE_NUM;
      var zeroed := new Block[BLOCK_NUM](_ => Zero());
      blocks := zeroed;
      img := zeroed[..];
    }

    /** An id beyond the disk leaves the caller's buffer as it was. */
    method ReadBlock(id: nat, buf: Block) returns (r: Block)
      requires Valid()
      ensures r == if id < |img| then img[id] else buf
    {
      r := buf;
      if id < blocks.Length {
        r := blocks[id];
      }
    }

    /** An id beyond the disk writes nothing. */
    method WriteBlock(id: nat, b: Block)
      requires Valid()
      modifies `img, blocks
      ensures Valid()
      ensures img == if id < |old(img)| then old(img)[id := b] else old(img)
    {
      if id < blocks.Length {
        blocks[id] := b;
        img := img[id := b];
      }
    }

    method AllocBlock() returns (id: nat)
      requires Valid()
      modifies `img, blocks
      ensures Valid()
      ensures id == 0 ==> NoneFree(old(img), nblocks, ninodes) && img == old(img)
      ensures id != 0 ==> FirstFree(old(img), nblocks, ninodes, id) && img == Mark(old(img), id)
    {
      var firstData := FirstData(nblocks, ninodes);
      var last := BBlock(nblocks);
      var block: nat := BBlock(firstData);
      var index: nat := firstData % BPB;
      var bitmap: Block := *;
      while block <= last
        invariant Valid() && img == old(img)
        invariant 2 <= block && index < BPB
        invariant firstData <= (block - 2) * BPB + index
        invariant forall c :: firstData <= c < (block - 2) * BPB + index && c < BitmapEnd(nblocks) ==> Marked(img, c)
      {
        bitmap := ReadBlock(block, bitmap);
        var start := index;
        index := ScanBlock(bitmap, index);
        forall c | (block - 2) * BPB + start <= c < (block - 2) * BPB + index ensures Marked(img, c) {
          assert BBlock(c) == block && c % BPB == c - (block - 2) * BPB;
        }
        if index < BPB {
          bitmap := bitmap[index / 8 := SetBit(bitmap[index / 8], index - 8 * (index / 8))];
          id := (block - 2) * (8 * BLOCK_SIZE) + index;
          assert BBlock(id) == block && id % BPB == index;
          WriteBlock(block, bitmap);
          return;
        }
        index := 0;
        block := block + 1;
      }
      assert (block - 2) * BPB >= BitmapEnd(nblocks);
      id := 0;
    }

    method FreeBlock(id: nat)
      requires Valid()
      modifies `img, blocks
      ensures Valid()
      ensures img == if BBlock(id) < |old(img)| then Unmark(old(img), id) else old(img)
    {
      var target := BBlock(id);
      var bitmap: Block := *;
      bitmap := ReadBlock(target, bitmap);
      var index := id % (8 * BLOCK_SIZE);
      bitmap := bitmap[index / 8 := ClearBit(bitmap[index / 8], index % 8)];
      WriteBlock(target, bitmap);
    }
  }
}
