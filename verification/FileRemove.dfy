/** remove_file.  Its block count is the wrong way round: a file whose size is no multiple of the
    block size keeps its last data block marked, and a file whose size is one gives up blocks that
    are not its own.  Both are stated exactly. */
module FileRemove {
  import opened DiskLayout
  import opened BlockLayer
  import opened InodeCodec
  import opened FileView
  import opened FilePlan
  import opened FileReshape
  import opened FileDone
  import opened FileAppend

  /** The number of blocks remove_file takes the file to have. */
  function Taken(size: nat): nat {
    if size % BLOCK_SIZE != 0 then size / BLOCK_SIZE else size / BLOCK_SIZE + 1
  }

  /** The ids remove_file frees when it takes the file to have t blocks. */
  function Released(blocks: seq<Word>, table: seq<Word>, t: nat): seq<Word>
    requires |blocks| == NDIRECT + 1 && |table| == NINDIRECT && t <= MAXFILE
  {
    if t < NDIRECT then blocks[..t] else table[..t - NDIRECT] + blocks[..NDIRECT + 1]
  }

  /** What remove_file reads as the table: the block that slot NDIRECT names, whether or not the
      file has a table, and the unset buffer if that block is beyond the disk. */
  function TableRead(img: Image, ino: Inode, buf: Block): (r: seq<Word>)
    requires |img| == BLOCK_NUM
    ensures |r| == NINDIRECT
  {
    TableOf(if ino.blocks[NDIRECT] < BLOCK_NUM then img[ino.blocks[NDIRECT]] else buf)
  }

  /** A file of n full blocks: the ids freed that it does not own, leftovers in slots behind its
      last block. */
  ghost function Leftover(blocks: seq<Word>, table: seq<Word>, n: nat): set<nat>
    requires |blocks| == NDIRECT + 1 && |table| == NINDIRECT && n < MAXFILE
  {
    if n + 1 < NDIRECT then {blocks[n] as nat}
    else if n + 1 == NDIRECT then {blocks[n] as nat, blocks[NDIRECT] as nat}
    else if n == NDIRECT then {table[0] as nat, blocks[NDIRECT] as nat}
    else {table[n - NDIRECT] as nat}
  }

  /** The ids freed that the file does not own. */
  ghost function Stale(ino: Inode, table: seq<Word>): set<nat>
    requires |table| == NINDIRECT && Count(ino.size) < MAXFILE
  {
    if ino.size % BLOCK_SIZE != 0 then {} else Leftover(ino.blocks, table, Count(ino.size))
  }

  /** The blocks of the file that stay marked. */
  ghost function Leaked(img: Image, ino: Inode): set<nat>
    requires |img| == BLOCK_NUM && Shape(ino)
  {
    if ino.size % BLOCK_SIZE != 0 then {Ids(img, ino)[Count(ino.size) - 1] as nat} else {}
  }

  lemma TakenIs(size: nat)
    ensures size % BLOCK_SIZE != 0 ==> Count(size) > 0 && Taken(size) == Count(size) - 1
    ensures size % BLOCK_SIZE == 0 ==> Taken(size) == Count(size) + 1
  {
  }

  // ----- one block too few -----

  function Last(blocks: seq<Word>, table: seq<Word>, n: nat): Word
    requires |blocks| == NDIRECT + 1 && 0 < n <= MAXFILE && (n > NDIRECT ==> |table| == NINDIRECT)
  {
    if n <= NDIRECT then blocks[n - 1] else table[n - 1 - NDIRECT]
  }

  lemma TooFew(blocks: seq<Word>, table: seq<Word>, n: nat)
    requires |blocks| == NDIRECT + 1 && |table| == NINDIRECT && 0 < n <= MAXFILE && Distinct(Listed(blocks, table, n))
    ensures Elems(Released(blocks, table, n - 1)) == Elems(Listed(blocks, table, n)) - {Last(blocks, table, n) as nat}
  {
    if n <= NDIRECT {
      assert blocks[..n] == blocks[..n - 1] + [blocks[n - 1]];
      DistinctSplit(blocks[..n - 1], [blocks[n - 1]]);
      ElemsSnoc(blocks[..n - 1], blocks[n - 1]);
      assert blocks[n - 1] in Elems([blocks[n - 1]]);
    } else {
      AllButLast(blocks, table, n);
      ElemsConcat(table[..n - 1 - NDIRECT], blocks[..NDIRECT + 1]);
    }
  }

  lemma AllButLast(blocks: seq<Word>, table: seq<Word>, n: nat)
    requires |blocks| == NDIRECT + 1 && |table| == NINDIRECT && NDIRECT < n <= MAXFILE
    requires Distinct(Listed(blocks, table, n))
    ensures Elems(table[..n - 1 - NDIRECT]) + Elems(blocks[..NDIRECT + 1])
         == Elems(Listed(blocks, table, n)) - {table[n - 1 - NDIRECT] as nat}
  {
    var t := n - 1 - NDIRECT;
    ListedElems(blocks, table, n);
    assert blocks[..NDIRECT + 1] == blocks;
    assert table[..t + 1] == table[..t] + [table[t]];
    ElemsSnoc(table[..t], table[t]);
    LastApart(blocks, table, n);
  }

  /** The last data block of a file is none of its other blocks. */
  lemma LastApart(blocks: seq<Word>, table: seq<Word>, n: nat)
    requires |blocks| == NDIRECT + 1 && |table| == NINDIRECT && NDIRECT < n <= MAXFILE
    requires Distinct(Listed(blocks, table, n))
    ensures table[n - 1 - NDIRECT] !in Elems(table[..n - 1 - NDIRECT])
    ensures table[n - 1 - NDIRECT] !in Elems(blocks[..NDIRECT + 1])
  {
    var owned, last := Listed(blocks, table, n), table[n - 1 - NDIRECT];
    assert owned[n - 1] == last;
    forall k | 0 <= k < n - 1 - NDIRECT ensures table[k] != last { assert owned[NDIRECT + k] == table[k]; }
    forall k | 0 <= k < NDIRECT + 1 ensures blocks[k] != last {
      assert blocks[k] == owned[if k < NDIRECT then k else n];
    }
  }

  // ----- one block too many -----

  lemma TooMany(blocks: seq<Word>, table: seq<Word>, n: nat)
    requires |blocks| == NDIRECT + 1 && |table| == NINDIRECT && n < MAXFILE
    ensures Elems(Released(blocks, table, n + 1)) == Elems(Listed(blocks, table, n)) + Leftover(blocks, table, n)
  {
    if n + 1 < NDIRECT {
      assert blocks[..n + 1] == blocks[..n] + [blocks[n]];
      ElemsSnoc(blocks[..n], blocks[n]);
    } else if n <= NDIRECT {
      AllSlots(blocks, table, n);
    } else {
      AllAndNext(blocks, table, n);
      ElemsConcat(table[..n + 1 - NDIRECT], blocks[..NDIRECT + 1]);
    }
  }

  lemma AllAndNext(blocks: seq<Word>, table: seq<Word>, n: nat)
    requires |blocks| == NDIRECT + 1 && |table| == NINDIRECT && NDIRECT < n < MAXFILE
    ensures Elems(table[..n + 1 - NDIRECT]) + Elems(blocks[..NDIRECT + 1])
         == Elems(Listed(blocks, table, n)) + {table[n - NDIRECT] as nat}
  {
    var t := n - NDIRECT;
    ListedElems(blocks, table, n);
    assert blocks[..NDIRECT + 1] == blocks;
    assert table[..t + 1] == table[..t] + [table[t]];
    ElemsSnoc(table[..t], table[t]);
  }

  /** NDIRECT - 1 or NDIRECT blocks: every direct slot is freed, and the slot for the table. */
  lemma AllSlots(blocks: seq<Word>, table: seq<Word>, n: nat)
    requires |blocks| == NDIRECT + 1 && |table| == NINDIRECT && n <= NDIRECT <= n + 1
    ensures Elems(Released(blocks, table, n + 1)) == Elems(blocks[..n]) + Leftover(blocks, table, n)
  {
    assert blocks[..NDIRECT + 1] == blocks[..NDIRECT] + [blocks[NDIRECT]];
    ElemsSnoc(blocks[..NDIRECT], blocks[NDIRECT]);
    ElemsConcat(table[..n + 1 - NDIRECT], blocks[..NDIRECT + 1]);
    if n < NDIRECT {
      assert blocks[..NDIRECT] == blocks[..n] + [blocks[n]];
      ElemsSnoc(blocks[..n], blocks[n]);
      assert Elems(table[..0]) == {};
    } else {
      assert table[..1] == [] + [table[0]];
      ElemsSnoc([], table[0]);
      assert Elems([]) == {};
    }
  }

  /** What remove_file frees: all the file owns, but for its last block or with leftovers added. */
  lemma ReleasedIs(img: Image, i: nat, buf: Block)
    requires Sound(img) && Live(img, i)
    ensures var ino := Ino(img, i); var table := TableRead(img, ino, buf);
            && Shape(ino) && Count(ino.size) < MAXFILE && Taken(ino.size) <= MAXFILE
            && Elems(Released(ino.blocks, table, Taken(ino.size)))
               == OwnedSet(img, i) - Leaked(img, ino) + Stale(ino, table)
  {
    var ino := Ino(img, i);
    var table := TableRead(img, ino, buf);
    CountBound(img, i);
    OldBlocks(img, i);
    OwnedIsListed(img, ino);
    TakenIs(ino.size);
    var n := Count(ino.size);
    assert Owned(img, ino) == Listed(ino.blocks, table, n);
    if ino.size % BLOCK_SIZE != 0 {
      TooFew(ino.blocks, table, n);
      assert Ids(img, ino)[n - 1] == Last(ino.blocks, table, n);
    } else {
      TooMany(ino.blocks, table, n);
    }
  }

  /** Everything freed has its bit in the bitmap block if the leftovers do. */
  lemma ReleasedInBitmap(img: Image, i: nat, gone: seq<Word>, leaked: set<nat>, stale: set<nat>)
    requires Sound(img) && Elems(gone) == OwnedSet(img, i) - leaked + stale
    requires forall b :: b in stale ==> b < BPB
    ensures forall k :: 0 <= k < |gone| ==> gone[k] < BPB
  {
    OwnedSetMarked(img, i);
    forall k | 0 <= k < |gone| ensures gone[k] < BPB { assert gone[k] in Elems(gone); }
  }

  lemma ReleasedParts(blocks: seq<Word>, table: seq<Word>, t: nat)
    requires |blocks| == NDIRECT + 1 && |table| == NINDIRECT && t <= MAXFILE
    ensures t < NDIRECT ==> Released(blocks, table, t) == blocks[0..t]
    ensures t >= NDIRECT ==> Released(blocks, table, t) == table[0..t - NDIRECT] + blocks[0..NDIRECT + 1]
  {
  }

  /** No other live file owns any of these blocks. */
  ghost predicate Spared(img: Image, i: nat, bs: set<nat>)
    requires |img| == BLOCK_NUM
  {
    forall j: nat, b: nat :: j != i && b in bs ==> !Owns(img, j, b)
  }

  /** Freeing marks and clearing an inode keeps the image sound exactly when the marks belong to
      no other file. */
  lemma FreedSoundIff(img: Image, img1: Image, img': Image, i: nat, gone: seq<Word>, dead: Inode)
    requires Sound(img) && Live(img, i) && Freed(img, img1, gone) && Stored(img1, img', i, dead) && dead.kind == 0
    ensures Marks(img') == Marks(img) - Elems(gone) && !Live(img', i)
    ensures Sound(img') <==> Spared(img, i, Elems(gone))
    ensures Sound(img') ==> Untouched(img, img', i)
  {
    SameBitmap(img1, img');
    if Spared(img, i, Elems(gone)) {
      EffectUntouched(img, img', i, Elems(gone), {}, {});
      Commit(img, img', i);
    } else {
      var j: nat, b: nat :| j != i && b in Elems(gone) && Owns(img, j, b);
      StillOwns(img, img', i, j, b);
      assert b !in Marks(img');
    }
  }

  lemma StillOwns(img: Image, img': Image, i: nat, j: nat, b: nat)
    requires Sound(img) && |img'| == BLOCK_NUM && i < INODE_NUM && j != i && Owns(img, j, b)
    requires forall c: nat :: c < BLOCK_NUM && c != 2 && c != Home(i) ==> img'[c] == img[c]
    ensures Live(img', j) && Shape(Ino(img', j)) && b in Owned(img', Ino(img', j))
  {
    var ino := Ino(img, j);
    OwnedOnDisk(img, ino);
    assert Ino(img', j) == ino;
    if Count(ino.size) > NDIRECT { assert ino.blocks[NDIRECT] == Owned(img, ino)[Count(ino.size)]; }
    assert Owned(img', ino) == Owned(img, ino);
  }

  /** The file's own blocks are no concern of the others. */
  lemma SparedBy(img: Image, i: nat, gone: set<nat>, leaked: set<nat>, stale: set<nat>)
    requires Sound(img) && gone == OwnedSet(img, i) - leaked + stale
    ensures Spared(img, i, gone) <==> Spared(img, i, stale)
  {
    forall j: nat, b: nat | j != i && b in gone && b !in stale ensures !Owns(img, j, b) {
      NotTheirs(img, i, b);
    }
  }

  // ----- ids whose bit is not in the bitmap -----

  /** Every id has its bit in the bitmap block. */
  ghost predicate InBitmap(bs: set<nat>) {
    forall b :: b in bs ==> b < BPB
  }

  /** The leftover ids do the other files no harm: none is a block of theirs, and none has a set bit
      in the home of another inode or in a block of another file. */
  ghost predicate Harmless(img: Image, i: nat, stale: set<nat>)
    requires |img| == BLOCK_NUM
  {
    && Spared(img, i, stale)
    && (forall j: nat :: j < INODE_NUM && j != i ==> !Bitten(img, stale, Home(j)))
    && (forall j: nat, b: nat :: j != i && Owns(img, j, b) && DataBlock(b) ==> !Bitten(img, stale, b))
  }

  /** All zeros, as memset leaves it. */
  function NoInode(): Inode {
    Inode(0, 0, 0, 0, 0, seq(NDIRECT + 1, _ => 0))
  }

  /** The inode is cleared, unless freeing has already taken the bits of its kind. */
  ghost predicate Cleared(mid: Image, img': Image, i: nat) {
    && |mid| == BLOCK_NUM && |img'| == BLOCK_NUM && i < INODE_NUM
    && if Live(mid, i) then Stored(mid, img', i, NoInode()) else img' == mid
  }

  lemma ClearedFrame(mid: Image, img': Image, i: nat)
    requires Cleared(mid, img', i)
    ensures !Live(img', i) && forall b: nat :: b < BLOCK_NUM && b != Home(i) ==> img'[b] == mid[b]
  {
  }

  /** The file's own ids have their bits in the bitmap, so only leftovers bite elsewhere. */
  lemma OnlyLeftoversBite(img: Image, i: nat, gone: set<nat>, leaked: set<nat>, stale: set<nat>, blk: nat)
    requires Sound(img) && gone == OwnedSet(img, i) - leaked + stale && 2 < blk < BLOCK_NUM
    ensures Bitten(img, gone, blk) <==> Bitten(img, stale, blk)
  {
    OwnedSetMarked(img, i);
    if Bitten(img, gone, blk) {
      var id :| id in gone && BBlock(id) == blk && Marked(img, id);
      assert id in stale;
    }
    if Bitten(img, stale, blk) {
      var id :| id in stale && BBlock(id) == blk && Marked(img, id);
      assert id in gone;
    }
  }

  /** The ids freed, of which `leaked` are spared and `stale` not the file's own. */
  ghost predicate Freeing(img: Image, img': Image, i: nat, ids: seq<Word>, leaked: set<nat>, stale: set<nat>) {
    && Sound(img) && Live(img, i) && Elems(ids) == OwnedSet(img, i) - leaked + stale
    && Cleared(FreeEach(img, ids), img', i)
  }

  /** A block other than the bitmap and the inode's own home changes if and only if a leftover bites it. */
  lemma BlockKeptIff(img: Image, img': Image, i: nat, ids: seq<Word>, leaked: set<nat>, stale: set<nat>, blk: nat)
    requires Freeing(img, img', i, ids, leaked, stale) && 2 < blk < BLOCK_NUM && blk != Home(i)
    ensures img'[blk] == img[blk] <==> !Bitten(img, stale, blk)
  {
    ClearedFrame(FreeEach(img, ids), img', i);
    FreeEachBlock(img, ids, blk);
    OnlyLeftoversBite(img, i, Elems(ids), leaked, stale, blk);
  }

  lemma MarksAfter(img: Image, img': Image, i: nat, ids: seq<Word>, leaked: set<nat>, stale: set<nat>)
    requires Freeing(img, img', i, ids, leaked, stale)
    ensures Marks(img') == Marks(img) - Elems(ids)
  {
    ClearedFrame(FreeEach(img, ids), img', i);
    SameBitmap(FreeEach(img, ids), img');
    FreeEachMarks(img, ids);
  }

  lemma HarmlessUntouched(img: Image, img': Image, i: nat, ids: seq<Word>, leaked: set<nat>, stale: set<nat>)
    requires Freeing(img, img', i, ids, leaked, stale) && Harmless(img, i, stale)
    ensures Untouched(img, img', i)
  {
    MarksAfter(img, img', i, ids, leaked, stale);
    SparedBy(img, i, Elems(ids), leaked, stale);
    forall j: nat | j < INODE_NUM && j != i ensures img'[Home(j)] == img[Home(j)] {
      BlockKeptIff(img, img', i, ids, leaked, stale, Home(j));
    }
    forall j: nat, b: nat | j != i && Owns(img, j, b) && DataBlock(b) ensures img'[b] == img[b] && Marked(img', b) {
      BlockKeptIff(img, img', i, ids, leaked, stale, b);
      assert b in Marks(img);
      assert b in Marks(img');
    }
  }

  lemma UntouchedHarmless(img: Image, img': Image, i: nat, ids: seq<Word>, leaked: set<nat>, stale: set<nat>)
    requires Freeing(img, img', i, ids, leaked, stale) && Untouched(img, img', i)
    ensures Harmless(img, i, stale)
  {
    MarksAfter(img, img', i, ids, leaked, stale);
    forall j: nat, b: nat | j != i && b in stale ensures !Owns(img, j, b) {
      if Owns(img, j, b) { OwnedOnDisk(img, Ino(img, j)); }
    }
    forall j: nat | j < INODE_NUM && j != i ensures !Bitten(img, stale, Home(j)) {
      BlockKeptIff(img, img', i, ids, leaked, stale, Home(j));
    }
    forall j: nat, b: nat | j != i && Owns(img, j, b) && DataBlock(b) ensures !Bitten(img, stale, b) {
      BlockKeptIff(img, img', i, ids, leaked, stale, b);
    }
  }

  /** What remove_file does to file i, which exists: whatever its leftover slots hold, the other
      files are untouched if and only if the leftovers are harmless. */
  ghost predicate RemovedFile(img: Image, img': Image, i: nat, buf: Block) {
    && Sound(img) && |img'| == BLOCK_NUM && Live(img, i) && !Live(img', i)
    && var ino := Ino(img, i);
    && Shape(ino) && Count(ino.size) < MAXFILE && Taken(ino.size) <= MAXFILE
    && var stale := Stale(ino, TableRead(img, ino, buf));
    && Cleared(FreeEach(img, Released(ino.blocks, TableRead(img, ino, buf), Taken(ino.size))), img', i)
    && Marks(img') == Marks(img) - (OwnedSet(img, i) - Leaked(img, ino)) - stale
    && (Untouched(img, img', i) <==> Harmless(img, i, stale))
    && (Untouched(img, img', i) ==> Sound(img'))
    && (InBitmap(stale) ==> (Sound(img') <==> Spared(img, i, stale)))
  }

  /** For every sound image and whatever the slots hold. */
  lemma RemoveHarmlessIff(img: Image, img': Image, i: nat, buf: Block)
    requires Sound(img) && Live(img, i) && Taken(Ino(img, i).size) <= MAXFILE
    requires var ino := Ino(img, i);
             Cleared(FreeEach(img, Released(ino.blocks, TableRead(img, ino, buf), Taken(ino.size))), img', i)
    ensures RemovedFile(img, img', i, buf)
  {
    var ino := Ino(img, i);
    ReleasedIs(img, i, buf);
    var stale, leaked := Stale(ino, TableRead(img, ino, buf)), Leaked(img, ino);
    var gone := Released(ino.blocks, TableRead(img, ino, buf), Taken(ino.size));
    assert Freeing(img, img', i, gone, leaked, stale);
    MarksAfter(img, img', i, gone, leaked, stale);
    ClearedFrame(FreeEach(img, gone), img', i);
    if Harmless(img, i, stale) { HarmlessUntouched(img, img', i, gone, leaked, stale); }
    if Untouched(img, img', i) {
      UntouchedHarmless(img, img', i, gone, leaked, stale);
      Commit(img, img', i);
    }
    if InBitmap(stale) { BitmapSoundIff(img, img', i, gone, leaked, stale); }
  }

  /** When every leftover id has its bit in the bitmap, the image is sound if and only if none
      belongs to another file. */
  lemma BitmapSoundIff(img: Image, img': Image, i: nat, ids: seq<Word>, leaked: set<nat>, stale: set<nat>)
    requires Freeing(img, img', i, ids, leaked, stale) && InBitmap(stale)
    ensures Sound(img') <==> Spared(img, i, stale)
  {
    ReleasedInBitmap(img, i, ids, leaked, stale);
    FreeEachFrees(img, ids);
    FreedSoundIff(img, FreeEach(img, ids), img', i, ids, NoInode());
    SparedBy(img, i, Elems(ids), leaked, stale);
  }
}
