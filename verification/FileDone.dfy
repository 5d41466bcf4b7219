/** The end of write_file: the planned blocks are written, the inode is stored, and the image is
    sound again with the new contents in place. */
module FileDone {
  import opened DiskLayout
  import opened InodeCodec
  import opened FileView
  import opened FilePlan
  import opened FileWrite
  import opened FileReshape

  /** Storing inode i changes its home block only. */
  ghost predicate Stored(img: Image, img': Image, i: nat, ino: Inode) {
    && |img| == BLOCK_NUM && |img'| == BLOCK_NUM && i < INODE_NUM
    && Ino(img', i) == ino
    && forall b: nat :: b < BLOCK_NUM && b != Home(i) ==> img'[b] == img[b]
  }

  /** What write_file promises about the images before and after it. */
  ghost predicate Written(img: Image, img': Image, i: nat, data: seq<Byte>) {
    && Sound(img) && Sound(img') && Live(img', i)
    && Contents(img', Ino(img', i)) == data
    && Untouched(img, img', i)
    && Marks(img') == Marks(img) - OwnedSet(img, i) + OwnedSet(img', i)
  }

  lemma PlanOnDisk(img: Image, img1: Image, i: nat, owned: seq<Word>)
    requires Sound(img) && Plan(img, img1, i, owned)
    ensures forall k :: 0 <= k < |owned| ==> DataBlock(owned[k])
    ensures forall b :: b in Elems(owned) ==> DataBlock(b)
  {
    OwnedSetMarked(img, i);
    forall k | 0 <= k < |owned| ensures DataBlock(owned[k]) { assert owned[k] in Elems(owned); }
  }

  lemma DirectDone(img: Image, img1: Image, img2: Image, img3: Image, i: nat, ino: Inode, mem: seq<Byte>)
    requires Sound(img) && Count(ino.size) <= NDIRECT && ino.kind != 0 && ino.size <= |mem|
    requires Plan(img, img1, i, ino.blocks[..Count(ino.size)])
    requires WroteRun(img1, img2, ino.blocks, Count(ino.size), mem)
    requires Stored(img2, img3, i, ino)
    ensures Written(img, img3, i, mem[..ino.size])
  {
    var n := Count(ino.size);
    var ids := ino.blocks[..n];
    PlanOnDisk(img, img1, i, ids);
    assert Owned(img3, ino) == ids == Ids(img3, ino);
    PlanDone(img, img1, img3, i, ids);
    forall k | 0 <= k < |ids| ensures img3[ids[k]] == Chunk(mem, k * BLOCK_SIZE) {}
    DataIsMem(img3, ids, mem);
    assert mem[..n * BLOCK_SIZE][..ino.size] == mem[..ino.size];
  }

  /** After the loops: direct block k holds its chunk, or zeros if the table loop came by. */
  ghost predicate DirectAfter(img: Image, blocks: seq<Word>, lost: nat, mem: seq<Byte>)
    requires |blocks| == NDIRECT + 1 && NDIRECT * BLOCK_SIZE <= |mem|
  {
    forall k :: 0 <= k < NDIRECT ==>
      blocks[k] < |img| && img[blocks[k]] == Chunk(ZeroPrefix(mem, lost), k * BLOCK_SIZE)
  }

  lemma LoopsLeave(img1: Image, img2: Image, img3: Image, blocks: seq<Word>, table: seq<Word>, n: nat, mem: seq<Byte>)
    requires |blocks| == NDIRECT + 1 && |table| == NINDIRECT && NDIRECT < n <= 2 * NDIRECT + 1
    requires Distinct(Listed(blocks, table, n))
    requires WroteRun(img1, img2, blocks, NDIRECT, mem) && WroteTable(img2, img3, blocks, table, n - NDIRECT, mem)
    ensures DirectAfter(img3, blocks, Lost(n), mem)
  {
    var owned := Listed(blocks, table, n);
    forall k | 0 <= k < NDIRECT
      ensures blocks[k] < |img3| && img3[blocks[k]] == Chunk(ZeroPrefix(mem, Lost(n)), k * BLOCK_SIZE)
    {
      ChunkOfZeroPrefix(mem, Lost(n), k);
      if k >= n - NDIRECT {
        NotListed(blocks, table, n, k);
      }
    }
  }

  lemma NotListed(blocks: seq<Word>, table: seq<Word>, n: nat, k: nat)
    requires |blocks| == NDIRECT + 1 && |table| == NINDIRECT && NDIRECT < n <= 2 * NDIRECT + 1
    requires Distinct(Listed(blocks, table, n)) && n - NDIRECT <= k < NDIRECT
    ensures blocks[k] !in Elems(blocks[..n - NDIRECT]) && blocks[k] !in Elems(table[..n - NDIRECT])
  {
    var owned := Listed(blocks, table, n);
    forall l | 0 <= l < n - NDIRECT ensures blocks[l] != blocks[k] && table[l] != blocks[k] {
      assert owned[k] == blocks[k] && owned[l] == blocks[l] && owned[NDIRECT + l] == table[l];
    }
  }

  lemma TableBlockDistinct(blocks: seq<Word>, table: seq<Word>, n: nat)
    requires |blocks| == NDIRECT + 1 && |table| == NINDIRECT && NDIRECT < n <= MAXFILE
    requires Distinct(Listed(blocks, table, n))
    ensures forall k :: 0 <= k < NDIRECT ==> blocks[k] != blocks[NDIRECT]
    ensures forall k :: 0 <= k < n - NDIRECT ==> table[k] != blocks[NDIRECT]
  {
    var owned := Listed(blocks, table, n);
    assert owned[n] == blocks[NDIRECT];
    forall k | 0 <= k < NDIRECT ensures blocks[k] != blocks[NDIRECT] { assert owned[k] == blocks[k]; }
    forall k | 0 <= k < n - NDIRECT ensures table[k] != blocks[NDIRECT] { assert owned[NDIRECT + k] == table[k]; }
  }

  lemma ListedMembers(blocks: seq<Word>, table: seq<Word>, n: nat)
    requires |blocks| == NDIRECT + 1 && |table| == NINDIRECT && NDIRECT < n <= 2 * NDIRECT + 1
    ensures Elems(blocks[..NDIRECT]) <= Elems(Listed(blocks, table, n))
    ensures Elems(blocks[..n - NDIRECT]) <= Elems(Listed(blocks, table, n))
    ensures Elems(table[..n - NDIRECT]) <= Elems(Listed(blocks, table, n))
    ensures blocks[NDIRECT] in Elems(Listed(blocks, table, n))
  {
    var owned := Listed(blocks, table, n);
    assert owned[n] == blocks[NDIRECT];
    forall k | 0 <= k <= NDIRECT ensures blocks[k] in Elems(owned) {
      if k < NDIRECT { assert owned[k] == blocks[k]; }
    }
    forall k | 0 <= k < n - NDIRECT ensures table[k] in Elems(owned) {
      assert owned[NDIRECT + k] == table[k];
    }
  }

  /** Everything the loops and the table write touch belongs to the plan. */
  lemma OnlyListed(img1: Image, img2: Image, img3: Image, img4: Image,
                   blocks: seq<Word>, table: seq<Word>, n: nat, mem: seq<Byte>, b: nat)
    requires |blocks| == NDIRECT + 1 && |table| == NINDIRECT && NDIRECT < n <= 2 * NDIRECT + 1
    requires blocks[NDIRECT] < BLOCK_NUM
    requires WroteRun(img1, img2, blocks, NDIRECT, mem) && WroteTable(img2, img3, blocks, table, n - NDIRECT, mem)
    requires img4 == img3[blocks[NDIRECT] := TableBlock(table)]
    requires b < BLOCK_NUM && b !in Elems(Listed(blocks, table, n))
    ensures img4[b] == img1[b]
  {
    ListedMembers(blocks, table, n);
    assert img2[b] == img1[b];
    assert img3[b] == img2[b];
  }

  /** After everything: block k of the file holds chunk k of the memory with its lost blocks zeroed. */
  lemma BlocksHold(img3: Image, img5: Image, i: nat, ino: Inode, table: seq<Word>, mem: seq<Byte>, k: nat)
    requires |img3| == BLOCK_NUM && |img5| == BLOCK_NUM && i < INODE_NUM && |table| == NINDIRECT
    requires NDIRECT < Count(ino.size) <= 2 * NDIRECT + 1 && Count(ino.size) * BLOCK_SIZE <= |mem|
    requires Distinct(Listed(ino.blocks, table, Count(ino.size)))
    requires AllData(Listed(ino.blocks, table, Count(ino.size)))
    requires DirectAfter(img3, ino.blocks, Lost(Count(ino.size)), mem)
    requires forall l :: 0 <= l < Count(ino.size) - NDIRECT ==>
               table[l] < BLOCK_NUM && img3[table[l]] == Chunk(mem, (NDIRECT + l) * BLOCK_SIZE)
    requires forall b: nat :: b < BLOCK_NUM && b != Home(i) && b != ino.blocks[NDIRECT] ==> img5[b] == img3[b]
    requires k < Count(ino.size)
    ensures var id := (ino.blocks[..NDIRECT] + table[..Count(ino.size) - NDIRECT])[k];
            id < BLOCK_NUM && img5[id] == Chunk(ZeroPrefix(mem, Lost(Count(ino.size))), k * BLOCK_SIZE)
  {
    var n := Count(ino.size);
    var owned := Listed(ino.blocks, table, n);
    var id := (ino.blocks[..NDIRECT] + table[..n - NDIRECT])[k];
    assert owned[k] == id && owned[n] == ino.blocks[NDIRECT];
    if k >= NDIRECT {
      ChunkOfZeroPrefix(mem, Lost(n), k);
      assert id == table[k - NDIRECT];
    } else {
      assert id == ino.blocks[k];
    }
  }

  lemma IdsAre(img: Image, ino: Inode, table: seq<Word>)
    requires |img| == BLOCK_NUM && |table| == NINDIRECT && NDIRECT < Count(ino.size) <= MAXFILE
    requires ino.blocks[NDIRECT] < BLOCK_NUM && img[ino.blocks[NDIRECT]] == TableBlock(table)
    ensures Shape(ino) && Ids(img, ino) == ino.blocks[..NDIRECT] + table[..Count(ino.size) - NDIRECT]
    ensures Owned(img, ino) == Listed(ino.blocks, table, Count(ino.size))
  {
    TableRoundTrip(table);
  }

  /** The loops, the write of the table and the store of the inode, from img1 to img5. */
  ghost predicate Finished(img1: Image, img2: Image, img3: Image, img4: Image, img5: Image,
                           i: nat, ino: Inode, table: seq<Word>, n: nat, mem: seq<Byte>) {
    && n == Count(ino.size) && NDIRECT < n <= 2 * NDIRECT + 1 && n * BLOCK_SIZE <= |mem| && |table| == NINDIRECT
    && WroteRun(img1, img2, ino.blocks, NDIRECT, mem)
    && WroteTable(img2, img3, ino.blocks, table, n - NDIRECT, mem)
    && ino.blocks[NDIRECT] < BLOCK_NUM && img4 == img3[ino.blocks[NDIRECT] := TableBlock(table)]
    && Stored(img4, img5, i, ino)
  }

  lemma FinishedFrame(img1: Image, img2: Image, img3: Image, img4: Image, img5: Image,
                      i: nat, ino: Inode, table: seq<Word>, n: nat, mem: seq<Byte>, owned: seq<Word>)
    requires Finished(img1, img2, img3, img4, img5, i, ino, table, n, mem) && owned == Listed(ino.blocks, table, n)
    requires DataBlock(ino.blocks[NDIRECT])
    ensures forall b: nat :: b < BLOCK_NUM && b != Home(i) && b !in Elems(owned) ==> img5[b] == img1[b]
    ensures Shape(ino) && Owned(img5, ino) == owned
    ensures Ids(img5, ino) == ino.blocks[..NDIRECT] + table[..n - NDIRECT]
  {
    IdsAre(img5, ino, table);
    forall b: nat | b < BLOCK_NUM && b != Home(i) && b !in Elems(owned) ensures img5[b] == img1[b] {
      OnlyListed(img1, img2, img3, img4, ino.blocks, table, n, mem, b);
    }
  }

  lemma IndirectPlaced(img: Image, img1: Image, img2: Image, img3: Image, img4: Image, img5: Image,
                       i: nat, ino: Inode, table: seq<Word>, n: nat, mem: seq<Byte>, owned: seq<Word>)
    requires Sound(img) && ino.kind != 0 && Finished(img1, img2, img3, img4, img5, i, ino, table, n, mem)
    requires owned == Listed(ino.blocks, table, n) && Plan(img, img1, i, owned)
    ensures Sound(img5) && Live(img5, i) && Untouched(img, img5, i)
    ensures Marks(img5) == Marks(img) - OwnedSet(img, i) + OwnedSet(img5, i)
    ensures Ids(img5, ino) == ino.blocks[..NDIRECT] + table[..n - NDIRECT]
  {
    PlanOnDisk(img, img1, i, owned);
    assert owned[n] == ino.blocks[NDIRECT];
    FinishedFrame(img1, img2, img3, img4, img5, i, ino, table, n, mem, owned);
    PlanDone(img, img1, img5, i, owned);
  }

  /** The contents, once the file is in place. */
  lemma IndirectContents(img1: Image, img2: Image, img3: Image, img4: Image, img5: Image,
                         i: nat, ino: Inode, table: seq<Word>, n: nat, mem: seq<Byte>)
    requires Finished(img1, img2, img3, img4, img5, i, ino, table, n, mem) && FileOk(img5, ino)
    requires Distinct(Listed(ino.blocks, table, n)) && AllData(Listed(ino.blocks, table, n))
    requires Ids(img5, ino) == ino.blocks[..NDIRECT] + table[..n - NDIRECT]
    ensures Contents(img5, ino) == ZeroPrefix(mem, Lost(n))[..ino.size]
  {
    LoopsLeave(img1, img2, img3, ino.blocks, table, n, mem);
    var ids := Ids(img5, ino);
    forall k | 0 <= k < |ids|
      ensures ids[k] < BLOCK_NUM && img5[ids[k]] == Chunk(ZeroPrefix(mem, Lost(n)), k * BLOCK_SIZE)
    {
      BlocksHold(img3, img5, i, ino, table, mem, k);
    }
    DataIsMem(img5, ids, ZeroPrefix(mem, Lost(n)));
    assert ZeroPrefix(mem, Lost(n))[..n * BLOCK_SIZE][..ino.size] == ZeroPrefix(mem, Lost(n))[..ino.size];
  }

  lemma IndirectDone(img: Image, img1: Image, img2: Image, img3: Image, img4: Image, img5: Image,
                     i: nat, ino: Inode, table: seq<Word>, n: nat, mem: seq<Byte>)
    requires Sound(img) && ino.kind != 0 && Finished(img1, img2, img3, img4, img5, i, ino, table, n, mem)
    requires Plan(img, img1, i, Listed(ino.blocks, table, n))
    ensures Written(img, img5, i, ZeroPrefix(mem, Lost(n))[..ino.size])
  {
    var owned := Listed(ino.blocks, table, n);
    IndirectPlaced(img, img1, img2, img3, img4, img5, i, ino, table, n, mem, owned);
    PlanOnDisk(img, img1, i, owned);
    IndirectContents(img1, img2, img3, img4, img5, i, ino, table, n, mem);
  }

  // ----- an id that is no data block -----

  /** A file that lists an id which is no data block makes the image unsound. */
  lemma StrayUnsound(img: Image, i: nat)
    requires |img| == BLOCK_NUM && Live(img, i) && Shape(Ino(img, i)) && !AllData(Owned(img, Ino(img, i)))
    ensures !Sound(img)
  {
    if Sound(img) { OwnedOnDisk(img, Ino(img, i)); }
  }

  lemma SoundIsData(img: Image, i: nat)
    requires Sound(img) && Live(img, i) && Count(Ino(img, i).size) > NDIRECT
    ensures DataBlock(Ino(img, i).blocks[NDIRECT])
  {
    var ino := Ino(img, i);
    OwnedOnDisk(img, ino);
    assert Owned(img, ino)[Count(ino.size)] == ino.blocks[NDIRECT];
  }

  lemma DirectStray(img: Image, i: nat, n: nat)
    requires |img| == BLOCK_NUM && Live(img, i) && n == Count(Ino(img, i).size) && n <= NDIRECT
    requires !AllData(Ino(img, i).blocks[..n])
    ensures !Sound(img)
  {
    assert Owned(img, Ino(img, i)) == Ino(img, i).blocks[..n];
    StrayUnsound(img, i);
  }

  lemma TableStray(img: Image, i: nat, table: seq<Word>, n: nat)
    requires |img| == BLOCK_NUM && Live(img, i) && n == Count(Ino(img, i).size) && NDIRECT < n <= MAXFILE
    requires |table| == NINDIRECT && !AllData(Listed(Ino(img, i).blocks, table, n))
    requires var tb := Ino(img, i).blocks[NDIRECT]; DataBlock(tb) ==> img[tb] == TableBlock(table)
    ensures !Sound(img)
  {
    var ino := Ino(img, i);
    if DataBlock(ino.blocks[NDIRECT]) {
      IdsAre(img, ino, table);
      StrayUnsound(img, i);
    } else if Sound(img) {
      SoundIsData(img, i);
    }
  }
}
