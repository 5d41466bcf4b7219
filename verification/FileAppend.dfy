/** append_block and complete: a file grows block by block and gets its size at the end. */
module FileAppend {
  import opened DiskLayout
  import opened InodeCodec
  import opened FileView
  import opened FilePlan
  import opened FileReshape
  import opened FileDone

  /** What append_block promises: one fresh id at the end, all else as it was. */
  ghost predicate Appended(img: Image, img': Image, i: nat, bid: Word) {
    && Sound(img) && Sound(img') && Live(img, i) && Live(img', i)
    && Ino(img', i).kind == Ino(img, i).kind && Ino(img', i).size == Ino(img, i).size + BLOCK_SIZE
    && bid in Unused(img)
    && Shape(Ino(img, i)) && Shape(Ino(img', i))
    && Ids(img', Ino(img', i)) == Ids(img, Ino(img, i)) + [bid]
    && (forall b :: b in Ids(img', Ino(img', i)) && DataBlock(b) ==> img'[b] == img[b])
    && Untouched(img, img', i)
    && Marks(img') == Marks(img) - OwnedSet(img, i) + OwnedSet(img', i)
  }

  /** The blocks that the append after n blocks takes: one, and one more for a new table. */
  function AppendTakes(n: nat): nat {
    if n == NDIRECT then 2 else 1
  }

  lemma CountNext(size: nat, size': nat)
    requires size' == size + BLOCK_SIZE
    ensures Count(size') == Count(size) + 1
  {
  }

  ghost function Interval(lo: nat, hi: nat): (r: set<nat>)
    requires lo <= hi
    ensures |r| == hi - lo && forall b: nat :: b in r <==> lo <= b < hi
    decreases hi
  {
    if lo == hi then {} else Interval(lo, hi - 1) + {hi - 1}
  }

  /** The data area has room for far fewer blocks than an inode can list. */
  lemma CountBound(img: Image, i: nat)
    requires Sound(img) && Live(img, i)
    ensures Shape(Ino(img, i)) && |Owned(img, Ino(img, i))| <= BLOCK_NUM - FIRST_DATA
    ensures Count(Ino(img, i).size) <= BLOCK_NUM - FIRST_DATA < MAXFILE
    ensures Ino(img, i).size <= (BLOCK_NUM - FIRST_DATA) * BLOCK_SIZE
  {
    OldBlocks(img, i);
    var owned := Owned(img, Ino(img, i));
    var area := Interval(FIRST_DATA, BLOCK_NUM);
    ElemsCount(owned);
    assert Elems(owned) <= Marks(img) <= area;
    assert area == Elems(owned) + (area - Elems(owned));
  }

  // ----- fewer than NDIRECT blocks -----

  lemma DirectPlaced(img: Image, img1: Image, img2: Image, i: nat, ino: Inode, ino': Inode, bid: Word, n: nat)
    requires Sound(img) && Live(img, i) && ino == Ino(img, i) && n == Count(ino.size) && n < NDIRECT
    requires Took(img, img1, [bid]) && Stored(img1, img2, i, ino') && ino'.kind != 0
    requires Count(ino'.size) == n + 1 && ino'.blocks == ino.blocks[n := bid]
    ensures Sound(img2) && Live(img2, i) && Untouched(img, img2, i) && Shape(ino')
    ensures Marks(img2) == Marks(img) - OwnedSet(img, i) + OwnedSet(img2, i)
    ensures Ids(img2, ino') == Ids(img, ino) + [bid]
  {
    var ids, ids' := ino.blocks[..n], ino'.blocks[..n + 1];
    assert Owned(img, ino) == ids + [];
    TakePart(img, img1, i, ids, [bid], []);
    assert ids' == ids + ([bid] + []);
    assert Owned(img2, ino') == ids';
    PlanDone(img, img1, img2, i, ids');
  }

  /** Data blocks are not inode homes and not the bitmap. */
  lemma DataSame(img: Image, img1: Image, img2: Image, i: nat, ino': Inode)
    requires OnlyBitmap(img, img1) && Stored(img1, img2, i, ino')
    ensures forall b: nat :: DataBlock(b) ==> img2[b] == img[b]
  {
  }

  lemma AppendDirect(img: Image, img1: Image, img2: Image, i: nat, ino: Inode, ino': Inode, bid: Word)
    requires Sound(img) && Live(img, i) && ino == Ino(img, i) && Count(ino.size) < NDIRECT
    requires Took(img, img1, [bid]) && Stored(img1, img2, i, ino')
    requires ino'.kind == ino.kind && ino'.size == ino.size + BLOCK_SIZE
    requires ino'.blocks == ino.blocks[Count(ino.size) := bid]
    ensures Appended(img, img2, i, bid)
  {
    CountNext(ino.size, ino'.size);
    DirectPlaced(img, img1, img2, i, ino, ino', bid, Count(ino.size));
    DataSame(img, img1, img2, i, ino');
    assert bid in Elems([bid]);
  }

  // ----- with a table -----

  lemma FirstIndirect(img: Image, img1: Image, img2: Image, i: nat, ino: Inode, bid: Word, tb: Word, table: seq<Word>)
    requires Sound(img) && Live(img, i) && ino == Ino(img, i) && Count(ino.size) == NDIRECT
    requires Took(img, img1, [bid]) && Took(img1, img2, [tb])
    requires |table| == NINDIRECT && table[0] == bid
    ensures Plan(img, img2, i, Listed(ino.blocks[NDIRECT := tb], table, NDIRECT + 1))
  {
    TookBoth(img, img1, img2, [bid], [tb]);
    var direct := ino.blocks[..NDIRECT];
    assert Owned(img, ino) == direct + [];
    TakePart(img, img2, i, direct, [bid] + [tb], []);
    FirstListed(ino.blocks, tb, table);
  }

  lemma FirstListed(blocks: seq<Word>, tb: Word, table: seq<Word>)
    requires |blocks| == NDIRECT + 1 && |table| == NINDIRECT
    ensures Listed(blocks[NDIRECT := tb], table, NDIRECT + 1) == blocks[..NDIRECT] + ([table[0]] + [tb] + [])
  {
  }

  lemma FilledOne(t: seq<Word>, k: nat, bid: Word)
    requires k < |t|
    ensures Filled(t[k := bid], t, k, k + 1, [bid])
  {
  }

  lemma NextIndirect(img: Image, img1: Image, i: nat, ino: Inode, bid: Word, t: seq<Word>, n: nat)
    requires HasTable(img, i, ino, n, t) && n < MAXFILE && Took(img, img1, [bid])
    ensures Plan(img, img1, i, Listed(ino.blocks, t[n - NDIRECT := bid], n + 1))
  {
    FilledOne(t, n - NDIRECT, bid);
    Grow22(img, img1, i, ino, [bid], t, t[n - NDIRECT := bid], n, n + 1);
  }

  /** The table has been written to its block and the inode stored. */
  ghost predicate TableStored(img: Image, img': Image, i: nat, ino: Inode, tb: Word, table: seq<Word>) {
    && |img| == BLOCK_NUM && |img'| == BLOCK_NUM && i < INODE_NUM && DataBlock(tb) && |table| == NINDIRECT
    && Ino(img', i) == ino && img'[tb] == TableBlock(table)
    && forall b: nat :: b < BLOCK_NUM && b != Home(i) && b != tb ==> img'[b] == img[b]
  }

  /** The marks and the lists for one block more, behind a table: nothing written yet. */
  ghost predicate Extended(img: Image, img2: Image, i: nat, ino: Inode, blocks: seq<Word>, table: seq<Word>,
                           n: nat, bid: Word) {
    && HasFile(img, i, ino, n) && Shape(ino) && NDIRECT <= n < MAXFILE && bid in Unused(img)
    && |blocks| == NDIRECT + 1 && |table| == NINDIRECT && DataBlock(blocks[NDIRECT])
    && Plan(img, img2, i, Listed(blocks, table, n + 1))
    && Ids(img, ino) + [bid] == blocks[..NDIRECT] + table[..n + 1 - NDIRECT]
  }

  lemma AppendIndirect(img: Image, img2: Image, img4: Image, i: nat, ino: Inode, ino': Inode,
                       blocks: seq<Word>, table: seq<Word>, n: nat, bid: Word)
    requires Extended(img, img2, i, ino, blocks, table, n, bid)
    requires ino'.kind == ino.kind && ino'.size == ino.size + BLOCK_SIZE && ino'.blocks == blocks
    requires TableStored(img2, img4, i, ino', blocks[NDIRECT], table)
    ensures Appended(img, img4, i, bid)
  {
    CountNext(ino.size, ino'.size);
    AppendPlaced(img, img2, img4, i, ino', blocks, table, n + 1);
    TableAside(img, img2, img4, i, ino', blocks, table, n + 1);
    AppendedIs(img, img4, i, ino, ino', blocks[..NDIRECT] + table[..n + 1 - NDIRECT], bid);
  }

  lemma AppendedIs(img: Image, img': Image, i: nat, ino: Inode, ino': Inode, ids: seq<Word>, bid: Word)
    requires Sound(img) && Sound(img') && Live(img, i) && Live(img', i) && ino == Ino(img, i) && ino' == Ino(img', i)
    requires ino'.kind == ino.kind && ino'.size == ino.size + BLOCK_SIZE && bid in Unused(img) && Shape(ino)
    requires Shape(ino')
    requires ids == Ids(img, ino) + [bid] && Ids(img', ino') == ids
    requires forall b :: b in ids && DataBlock(b) ==> img'[b] == img[b]
    requires Untouched(img, img', i) && Marks(img') == Marks(img) - OwnedSet(img, i) + OwnedSet(img', i)
    ensures Appended(img, img', i, bid)
  {
  }

  lemma FirstIndirectIds(img: Image, ino: Inode, tb: Word, table: seq<Word>)
    requires |img| == BLOCK_NUM && Count(ino.size) == NDIRECT && |table| == NINDIRECT
    ensures Ids(img, ino) + [table[0]] == ino.blocks[NDIRECT := tb][..NDIRECT] + table[..1]
  {
  }

  lemma NextIndirectIds(img: Image, ino: Inode, t: seq<Word>, bid: Word, n: nat)
    requires |img| == BLOCK_NUM && Shape(ino) && n == Count(ino.size) && NDIRECT < n < MAXFILE && t == TableIn(img, ino)
    ensures Ids(img, ino) + [bid] == ino.blocks[..NDIRECT] + t[n - NDIRECT := bid][..n + 1 - NDIRECT]
  {
    IdsByTable(img, ino, t);
    assert t[n - NDIRECT := bid][..n + 1 - NDIRECT] == t[..n - NDIRECT] + [bid];
  }

  /** The table's block is none of the data blocks, so writing it changes no data. */
  lemma TableAside(img: Image, img2: Image, img4: Image, i: nat, ino': Inode, blocks: seq<Word>,
                   table: seq<Word>, n: nat)
    requires |blocks| == NDIRECT + 1 && |table| == NINDIRECT && NDIRECT < n <= MAXFILE
    requires Plan(img, img2, i, Listed(blocks, table, n))
    requires TableStored(img2, img4, i, ino', blocks[NDIRECT], table)
    ensures forall b :: b in blocks[..NDIRECT] + table[..n - NDIRECT] && DataBlock(b) ==> img4[b] == img[b]
  {
    var owned, ids := Listed(blocks, table, n), blocks[..NDIRECT] + table[..n - NDIRECT];
    forall b | b in ids && DataBlock(b) ensures img4[b] == img[b] {
      var k :| 0 <= k < |ids| && ids[k] == b;
      assert owned[k] == ids[k] && owned[n] == blocks[NDIRECT];
    }
  }

  lemma AppendPlaced(img: Image, img2: Image, img4: Image, i: nat, ino': Inode, blocks: seq<Word>,
                     table: seq<Word>, n: nat)
    requires Sound(img) && n == Count(ino'.size) && NDIRECT < n <= MAXFILE && |table| == NINDIRECT
    requires ino'.kind != 0 && ino'.blocks == blocks && Plan(img, img2, i, Listed(blocks, table, n))
    requires TableStored(img2, img4, i, ino', blocks[NDIRECT], table)
    ensures Sound(img4) && Live(img4, i) && Untouched(img, img4, i) && Shape(ino')
    ensures Marks(img4) == Marks(img) - OwnedSet(img, i) + OwnedSet(img4, i)
    ensures Ids(img4, ino') == blocks[..NDIRECT] + table[..n - NDIRECT]
  {
    var owned := Listed(blocks, table, n);
    assert owned[n] == blocks[NDIRECT];
    assert blocks[NDIRECT] in Elems(owned);
    IdsAre(img4, ino', table);
    PlanDone(img, img2, img4, i, owned);
  }

  // ----- complete -----

  /** Setting a size that needs no more blocks than the file has keeps the image sound: the file
      keeps the first of its blocks. */
  lemma CompleteSound(img: Image, img': Image, i: nat, ino: Inode, ino': Inode)
    requires Sound(img) && Live(img, i) && ino == Ino(img, i) && Stored(img, img', i, ino')
    requires ino'.kind == ino.kind && ino'.blocks == ino.blocks && Count(ino'.size) <= Count(ino.size)
    ensures Sound(img') && Untouched(img, img', i) && Marks(img') == Marks(img)
    ensures Shape(ino) && Shape(ino') && Ids(img', ino') == Ids(img, ino)[..Count(ino'.size)]
  {
    OldBlocks(img, i);
    SameBitmap(img, img');
    OwnedOnDisk(img, ino);
    var n, n' := Count(ino.size), Count(ino'.size);
    var ids := Ids(img, ino);
    if n > NDIRECT { assert ino.blocks[NDIRECT] == Owned(img, ino)[n]; }
    assert Ids(img', ino') == ids[..n'];
    assert forall k :: 0 <= k < n' ==> ids[..n'][k] == Owned(img, ino)[k];
    Sublist(img, ino, img', ino');
    EffectSound(img, img', i, {}, {}, {});
  }

  lemma Sublist(img: Image, ino: Inode, img': Image, ino': Inode)
    requires |img| == BLOCK_NUM && |img'| == BLOCK_NUM && FileOk(img, ino) && Shape(ino')
    requires Marks(img') == Marks(img) && ino'.blocks == ino.blocks && Count(ino'.size) <= Count(ino.size)
    requires Ids(img', ino') == Ids(img, ino)[..Count(ino'.size)]
    ensures FileOk(img', ino') && Elems(Owned(img', ino')) <= Elems(Owned(img, ino))
  {
    var owned, owned' := Owned(img, ino), Owned(img', ino');
    var n, n' := Count(ino.size), Count(ino'.size);
    forall k | 0 <= k < |owned'| ensures owned'[k] == owned[if k < n' then k else n] {}
  }

  // ----- a size that needs more blocks than the file has -----

  /** The ids that a larger size makes part of the file: those in the slots behind its last block,
      and the table if it had none. */
  ghost function Uncovered(img: Image, ino: Inode, size: Word): seq<Word>
    requires |img| == BLOCK_NUM && Shape(ino.(size := size)) && Count(ino.size) <= Count(size)
  {
    Ids(img, ino.(size := size))[Count(ino.size)..]
    + if Count(ino.size) <= NDIRECT < Count(size) then [ino.blocks[NDIRECT]] else []
  }

  /** Either no id is uncovered, or the uncovered ids are different marked blocks that nobody owns. */
  ghost predicate Extendable(img: Image, i: nat, size: Word)
    requires |img| == BLOCK_NUM && Live(img, i)
  {
    var ino := Ino(img, i);
    Count(size) > Count(ino.size) ==>
      && Shape(ino.(size := size))
      && var more := Uncovered(img, ino, size);
      && Distinct(more) && Elems(more) <= Marks(img)
      && forall j: nat, b: nat :: b in Elems(more) ==> !Owns(img, j, b)
  }

  lemma InsertDistinct(a: seq<Word>, more: seq<Word>, tail: seq<Word>)
    requires Distinct(a + tail) && Distinct(more) && Elems(more) !! Elems(a + tail)
    ensures Distinct(a + more + tail) && Elems(a + more + tail) == Elems(a + tail) + Elems(more)
  {
    DistinctSplit(a, tail);
    ElemsConcat(a, tail);
    ElemsConcat(a, more);
    DistinctConcat(a, more);
    DistinctConcat(a + more, tail);
    ElemsConcat(a + more, tail);
  }

  lemma InsertedDistinct(a: seq<Word>, more: seq<Word>, tail: seq<Word>)
    requires Distinct(a + more + tail)
    ensures Distinct(more) && Elems(more) !! Elems(a + tail) && Elems(more) <= Elems(a + more + tail)
  {
    DistinctSplit(a + more, tail);
    DistinctSplit(a, more);
    ElemsConcat(a, tail);
    ElemsConcat(a, more);
    ElemsConcat(a + more, tail);
  }

  /** The table's block, if the file has one. */
  ghost function Tail(ino: Inode): seq<Word> {
    if Count(ino.size) > NDIRECT then [ino.blocks[NDIRECT]] else []
  }

  /** The new list of blocks is the old one with the uncovered ids put in. */
  lemma OwnedBigger(img: Image, img': Image, ino: Inode, ino': Inode)
    requires |img| == BLOCK_NUM && |img'| == BLOCK_NUM && Shape(ino) && Shape(ino')
    requires ino'.blocks == ino.blocks && Count(ino.size) < Count(ino'.size)
    requires Count(ino'.size) > NDIRECT ==> img'[ino.blocks[NDIRECT]] == img[ino.blocks[NDIRECT]]
    ensures Shape(ino.(size := ino'.size))
    ensures Ids(img', ino')[..Count(ino.size)] == Ids(img, ino)
    ensures Owned(img, ino) == Ids(img, ino) + Tail(ino)
    ensures Owned(img', ino') == Ids(img, ino) + Uncovered(img, ino, ino'.size) + Tail(ino)
  {
    var ids' := Ids(img', ino');
    assert ids' == Ids(img, ino.(size := ino'.size));
    assert ids'[..Count(ino.size)] == Ids(img, ino);
    assert ids' == Ids(img, ino) + ids'[Count(ino.size)..];
  }

  /** Storing the inode with another size changes nothing for the other files. */
  lemma ResizeUntouched(img: Image, img': Image, i: nat, ino': Inode)
    requires Sound(img) && Live(img, i) && Stored(img, img', i, ino')
    ensures Untouched(img, img', i) && Marks(img') == Marks(img)
  {
    SameBitmap(img, img');
    EffectUntouched(img, img', i, {}, {}, {});
  }

  lemma ExtendSound(img: Image, img': Image, i: nat, ino: Inode, ino': Inode)
    requires Sound(img) && Live(img, i) && ino == Ino(img, i) && Stored(img, img', i, ino')
    requires ino'.kind == ino.kind && ino'.blocks == ino.blocks && Count(ino'.size) > Count(ino.size)
    requires Extendable(img, i, ino'.size)
    ensures Sound(img') && Shape(ino) && Shape(ino') && Ids(img', ino')[..Count(ino.size)] == Ids(img, ino)
  {
    ResizeUntouched(img, img', i, ino');
    OldBlocks(img, i);
    var more := Uncovered(img, ino, ino'.size);
    TableInPlace(img, i, ino'.size, more);
    OwnedBigger(img, img', ino, ino');
    forall b | b in Elems(more) ensures b !in Elems(Owned(img, ino)) { assert !Owns(img, i, b); }
    InsertDistinct(Ids(img, ino), more, Tail(ino));
    forall b | b in Owned(img', ino') ensures b in Marks(img') { assert b in Elems(Owned(img', ino')); }
    forall j: nat, b: nat | j != i && Owns(img, j, b) ensures !Owns(img', i, b) {
      if b in Elems(Owned(img, ino)) { assert Owns(img, i, b); }
    }
    Commit(img, img', i);
  }

  /** If there is to be a table, it is in the data area. */
  lemma TableInPlace(img: Image, i: nat, size: Word, more: seq<Word>)
    requires Sound(img) && Live(img, i) && Count(size) > Count(Ino(img, i).size) && Shape(Ino(img, i).(size := size))
    requires more == Uncovered(img, Ino(img, i), size) && Elems(more) <= Marks(img)
    ensures Count(size) > NDIRECT ==> DataBlock(Ino(img, i).blocks[NDIRECT])
  {
    var ino := Ino(img, i);
    if Count(ino.size) > NDIRECT {
      SoundIsData(img, i);
    } else if Count(size) > NDIRECT {
      assert more[|more| - 1] == ino.blocks[NDIRECT];
      assert ino.blocks[NDIRECT] in Elems(more);
    }
  }

  lemma SoundExtends(img: Image, img': Image, i: nat, ino: Inode, ino': Inode)
    requires Sound(img) && Live(img, i) && ino == Ino(img, i) && Stored(img, img', i, ino') && Sound(img')
    requires ino'.kind == ino.kind && ino'.blocks == ino.blocks && Count(ino'.size) > Count(ino.size)
    ensures Extendable(img, i, ino'.size)
  {
    ResizeUntouched(img, img', i, ino');
    OldBlocks(img, i);
    OldBlocks(img', i);
    if Count(ino'.size) > NDIRECT { SoundIsData(img', i); }
    OwnedBigger(img, img', ino, ino');
    var more := Uncovered(img, ino, ino'.size);
    InsertedDistinct(Ids(img, ino), more, Tail(ino));
    forall j: nat, b: nat | b in Elems(more) ensures !Owns(img, j, b) {
      assert Owns(img', i, b) by { assert b in Elems(Owned(img', ino')); }
      if j != i && Owns(img, j, b) { OtherKept(img, img', i, j); assert Owns(img', j, b); }
    }
  }

  /** What complete does to file i, which exists: the size is set and the other files are untouched.
      The image stays sound if and only if the size uncovers no ids, or only different marked
      blocks that nobody owns; then the file keeps the first of its blocks, or all of them. */
  ghost predicate Completed(img: Image, img': Image, i: nat, size: Word, now: Word) {
    && Sound(img) && |img'| == BLOCK_NUM && Live(img, i)
    && Stored(img, img', i, Ino(img, i).(size := size, atime := now, mtime := now, ctime := now))
    && Untouched(img, img', i) && Marks(img') == Marks(img)
    && (Sound(img') <==> Extendable(img, i, size))
    && (Sound(img') ==>
          && Shape(Ino(img, i)) && Shape(Ino(img', i))
          && var n, n', ids, ids' :=
               Count(Ino(img, i).size), Count(size), Ids(img, Ino(img, i)), Ids(img', Ino(img', i));
          if n' <= n then ids' == ids[..n'] else ids'[..n] == ids)
  }

  lemma CompleteSoundIff(img: Image, img': Image, i: nat, size: Word, now: Word)
    requires Sound(img) && Live(img, i)
    requires Stored(img, img', i, Ino(img, i).(size := size, atime := now, mtime := now, ctime := now))
    ensures Completed(img, img', i, size, now)
  {
    var ino, ino' := Ino(img, i), Ino(img', i);
    ResizeUntouched(img, img', i, ino');
    if Count(size) <= Count(ino.size) {
      CompleteSound(img, img', i, ino, ino');
    } else {
      if Extendable(img, i, size) { ExtendSound(img, img', i, ino, ino'); }
      if Sound(img') { SoundExtends(img, img', i, ino, ino'); }
    }
  }
}
