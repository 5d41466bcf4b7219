/** The inode layer: files as inodes with direct blocks and one table of indirect blocks. */
module InodeLayer {
  import opened Options
  import opened DiskLayout
  import opened BlockLayer
  import opened InodeCodec
  import opened FileView
  import opened FilePlan
  import opened FileWrite
  import opened FileReshape
  import opened FileDone
  import opened FileAppend
  import opened FileRemove
  import opened FileGrow

  const T_DIR := 1
  const T_FILE := 2

  /** Before round i of the table loop, direct block i and indirect block i have not been touched. */
  lemma ListedApart(direct: seq<Word>, table: seq<Word>, n: nat, i: nat)
    requires |direct| == NDIRECT + 1 && |table| == NINDIRECT && i < n <= NDIRECT + 1
    requires Distinct(Listed(direct, table, NDIRECT + n))
    ensures forall k :: 0 <= k < i ==> table[k] != direct[i] && direct[k] != direct[i] && table[k] != table[i]
    ensures forall k :: 0 <= k <= i ==> direct[k] != table[i]
  {
    var owned := Listed(direct, table, NDIRECT + n);
    forall k | 0 <= k <= NDIRECT ensures direct[k] == owned[if k < NDIRECT then k else NDIRECT + n] {}
    forall k | 0 <= k < n ensures table[k] == owned[NDIRECT + k] {}
  }

  lemma TouchedEach(direct: seq<Word>, table: seq<Word>, n: nat, i: nat)
    requires i < n <= |direct| && n <= |table|
    ensures direct[i] as nat in Touched(direct, table, n) && table[i] as nat in Touched(direct, table, n)
  {
    assert table[..n][i] == table[i];
  }

  lemma RunReady(slots: seq<Word>, n: nat, i: nat)
    requires i < n <= |slots| && Distinct(slots[..n]) && AllData(slots[..n])
    ensures slots[i] < BLOCK_NUM && forall k :: 0 <= k < i ==> slots[k] != slots[i]
  {
    assert forall k :: 0 <= k < n ==> slots[..n][k] == slots[k];
  }

  lemma IndirectReady(blocks: seq<Word>, table: seq<Word>, n: nat)
    requires |blocks| == NDIRECT + 1 && |table| == NINDIRECT && NDIRECT < n <= 2 * NDIRECT + 1
    requires Distinct(Listed(blocks, table, n)) && AllData(Listed(blocks, table, n))
    ensures Distinct(blocks[..NDIRECT]) && AllData(blocks[..NDIRECT])
    ensures OnDisk(blocks, table, n - NDIRECT) && DataBlock(blocks[NDIRECT])
  {
    var owned := Listed(blocks, table, n);
    ListedAll(blocks, table, n, owned);
    assert forall k :: 0 <= k < NDIRECT ==> owned[k] == blocks[..NDIRECT][k];
  }

  lemma ZeroPrefixNone(mem: seq<Byte>)
    ensures ZeroPrefix(mem, 0) == mem
  {
  }

  lemma DataSnoc(img: Image, slots: seq<Word>, i: nat)
    requires i < |slots| && forall k :: 0 <= k <= i ==> slots[k] < |img|
    ensures Data(img, slots[..i + 1]) == Data(img, slots[..i]) + img[slots[i]]
  {
  }

  lemma DataConcat(img: Image, a: seq<Word>, b: seq<Word>)
    requires (forall k :: 0 <= k < |a| ==> a[k] < |img|) && (forall k :: 0 <= k < |b| ==> b[k] < |img|)
    ensures Data(img, a + b) == Data(img, a) + Data(img, b)
  {
    forall p | 0 <= p < (|a| + |b|) * BLOCK_SIZE
      ensures Data(img, a + b)[p] == (Data(img, a) + Data(img, b))[p]
    {
      if p >= |a| * BLOCK_SIZE {
        assert (p - |a| * BLOCK_SIZE) / BLOCK_SIZE == p / BLOCK_SIZE - |a|;
      }
    }
  }

  /** A file of at most one block is read from slot 0 whatever that holds. */
  lemma OneBlock(img: Image, ino: Inode, out: seq<Byte>)
    requires |img| == BLOCK_NUM && FileOk(img, ino) && ino.size <= BLOCK_SIZE && |out| == BLOCK_SIZE
    requires ino.blocks[0] < BLOCK_NUM ==> out == img[ino.blocks[0]]
    ensures out[..ino.size] == Contents(img, ino)
  {
    OwnedOnDisk(img, ino);
    if ino.size > 0 {
      assert Ids(img, ino) == [ino.blocks[0]];
    }
  }

  /** Changing times only. */
  lemma TouchSound(img: Image, img': Image, i: nat, ino: Inode)
    requires Sound(img) && Live(img, i) && Stored(img, img', i, ino)
    requires ino.kind == Ino(img, i).kind && ino.size == Ino(img, i).size && ino.blocks == Ino(img, i).blocks
    ensures Sound(img') && Untouched(img, img', i) && FileOk(img', ino)
    ensures Owned(img', ino) == Owned(img, Ino(img, i)) && Contents(img', ino) == Contents(img, Ino(img, i))
  {
    var before := Ino(img, i);
    CompleteSound(img, img', i, before, ino);
    var ids := Ids(img, before);
    assert ids[..Count(ino.size)] == ids;
    OwnedOnDisk(img, before);
    SameData(img, img', ids);
  }

  lemma DirectOnDisk(img: Image, i: nat)
    requires Sound(img) && Live(img, i) && Count(Ino(img, i).size) <= NDIRECT
    ensures forall k :: 0 <= k < Count(Ino(img, i).size) ==> DataBlock(Ino(img, i).blocks[k])
  {
    var ino := Ino(img, i);
    OwnedOnDisk(img, ino);
    forall k | 0 <= k < Count(ino.size) ensures DataBlock(ino.blocks[k]) { assert Owned(img, ino)[k] == ino.blocks[k]; }
  }

  lemma ListedOnDisk(img: Image, i: nat, table: seq<Word>)
    requires Sound(img) && Live(img, i) && Count(Ino(img, i).size) > NDIRECT && Shape(Ino(img, i))
    requires table == TableIn(img, Ino(img, i))
    ensures forall k :: 0 <= k < NDIRECT + 1 ==> DataBlock(Ino(img, i).blocks[k])
    ensures forall k :: 0 <= k < Count(Ino(img, i).size) - NDIRECT ==> DataBlock(table[k])
  {
    var ino := Ino(img, i);
    var owned := Owned(img, ino);
    OwnedOnDisk(img, ino);
    OwnedIsListed(img, ino);
    ListedAll(ino.blocks, table, Count(ino.size), owned);
  }

  lemma ListedAll(blocks: seq<Word>, table: seq<Word>, n: nat, owned: seq<Word>)
    requires |blocks| == NDIRECT + 1 && |table| == NINDIRECT && NDIRECT < n <= MAXFILE
    requires owned == Listed(blocks, table, n) && forall k :: 0 <= k < |owned| ==> DataBlock(owned[k])
    ensures forall k :: 0 <= k < NDIRECT + 1 ==> DataBlock(blocks[k])
    ensures forall k :: 0 <= k < n - NDIRECT ==> DataBlock(table[k])
  {
    forall k | 0 <= k < NDIRECT + 1 ensures DataBlock(blocks[k]) {
      assert blocks[k] == owned[if k < NDIRECT then k else n];
    }
    forall k | 0 <= k < n - NDIRECT ensures DataBlock(table[k]) {
      assert table[k] == owned[NDIRECT + k];
    }
  }

  /** What alloc_block does: with room it takes the least unused data block, without room it hands
      out an id that is no data block. */
  ghost predicate Allocated(img: Image, img': Image, id: Word) {
    && |img| == BLOCK_NUM && |img'| == BLOCK_NUM
    && (Unused(img) != {} ==>
          Took(img, img', [id]) && id in Unused(img) && Least(img, id) && |Unused(img')| == |Unused(img)| - 1)
    && (Unused(img) == {} ==> Overran(img, img', id))
  }

  /** No unused data block comes before b. */
  ghost predicate Least(img: Image, b: nat)
    requires |img| == BLOCK_NUM
  {
    forall c :: FIRST_DATA <= c < b ==> c !in Unused(img)
  }

  /** Slots lo to hi - 1 have been filled with newly allocated ids; without room, one of them is stray. */
  ghost predicate AllocatedInto(img: Image, img': Image, slots: seq<Word>, lo: nat, hi: nat,
                                r: seq<Word>, got: seq<Word>) {
    && |img| == BLOCK_NUM && |img'| == BLOCK_NUM && Filled(r, slots, lo, hi, got)
    && (hi - lo <= |Unused(img)| ==> Took(img, img', got) && |Unused(img')| == |Unused(img)| - (hi - lo))
    && (hi - lo > |Unused(img)| ==> !AllData(got))
  }

  /** A list with a stray id in it. */
  lemma FilledStray(r: seq<Word>, slots: seq<Word>, lo: nat, hi: nat, got: seq<Word>, n: nat)
    requires Filled(r, slots, lo, hi, got) && hi <= n <= |r| && !AllData(got)
    ensures !AllData(r[..n])
  {
    var k :| 0 <= k < |got| && !DataBlock(got[k]);
    assert r[..n][lo + k] == got[k];
  }

  lemma OneMoreStray(got: seq<Word>, id: Word)
    ensures !AllData(got) || !DataBlock(id) ==> !AllData(got + [id])
  {
    if !AllData(got) {
      var k :| 0 <= k < |got| && !DataBlock(got[k]);
      assert (got + [id])[k] == got[k];
    }
    assert (got + [id])[|got|] == id;
  }

  lemma AllocatedMore(img: Image, img1: Image, img2: Image, slots: seq<Word>, lo: nat, i: nat,
                      r: seq<Word>, got: seq<Word>, id: Word)
    requires i < |slots| && AllocatedInto(img, img1, slots, lo, i, r, got) && Allocated(img1, img2, id)
    ensures AllocatedInto(img, img2, slots, lo, i + 1, r[i := id], got + [id])
  {
    if i - lo < |Unused(img)| { TookBoth(img, img1, img2, got, [id]); }
    FilledMore(r, slots, lo, i, got, id);
    OneMoreStray(got, id);
  }

  lemma ListedStray(blocks: seq<Word>, table: seq<Word>, n: nat)
    requires |blocks| == NDIRECT + 1 && |table| == NINDIRECT && NDIRECT < n <= MAXFILE
    requires !AllData(blocks[..NDIRECT]) || !DataBlock(blocks[NDIRECT]) || !AllData(table[..n - NDIRECT])
    ensures !AllData(Listed(blocks, table, n))
  {
    if AllData(Listed(blocks, table, n)) {
      ListedAll(blocks, table, n, Listed(blocks, table, n));
    }
  }

  /** Case 1-1, with room and without. */
  lemma GrewDirect(img: Image, img1: Image, i: nat, ino: Inode, got: seq<Word>, r: seq<Word>, n: nat, need: nat)
    requires HasFile(img, i, ino, n) && n < need <= NDIRECT && AllocatedInto(img, img1, ino.blocks, n, need, r, got)
    ensures |r| == NDIRECT + 1 && SlotsKept(ino.blocks, r, n, need)
    ensures need - n <= |Unused(img)| ==> Plan(img, img1, i, Listed(r, [], need))
    ensures need - n > |Unused(img)| ==> !AllData(r[..need])
  {
    if need - n <= |Unused(img)| {
      Grow11(img, img1, i, ino, got, r, n, need);
    } else {
      FilledStray(r, ino.blocks, n, need, got, need);
    }
  }

  /** Case 2-2, with room and without. */
  lemma GrewTable(img: Image, img1: Image, i: nat, ino: Inode, got: seq<Word>, t: seq<Word>, table: seq<Word>,
                  n: nat, need: nat)
    requires HasTable(img, i, ino, n, t) && n < need <= MAXFILE
    requires AllocatedInto(img, img1, t, n - NDIRECT, need - NDIRECT, table, got)
    ensures |table| == NINDIRECT
    ensures need - n <= |Unused(img)| ==> Plan(img, img1, i, Listed(ino.blocks, table, need))
    ensures need - n > |Unused(img)| ==> !AllData(Listed(ino.blocks, table, need))
  {
    if need - n <= |Unused(img)| {
      Grow22(img, img1, i, ino, got, t, table, n, need);
    } else {
      FilledStray(table, t, n - NDIRECT, need - NDIRECT, got, need - NDIRECT);
      ListedStray(ino.blocks, table, need);
    }
  }

  /** Case 2-1: the direct blocks that are missing, the table's block, the table's ids. */
  ghost predicate TableAdded(img: Image, img1: Image, img2: Image, img3: Image, slots: seq<Word>, n: nat, need: nat,
                             direct: seq<Word>, got: seq<Word>, tb: Word, garbage: seq<Word>, table: seq<Word>,
                             more: seq<Word>) {
    && |slots| == NDIRECT + 1 && |garbage| == NINDIRECT && n < NDIRECT < need <= MAXFILE
    && AllocatedInto(img, img1, slots, n, NDIRECT, direct, got) && Allocated(img1, img2, tb)
    && AllocatedInto(img2, img3, garbage, 0, need - NDIRECT, table, more)
  }

  lemma AddedWithRoom(img: Image, img1: Image, img2: Image, img3: Image, i: nat, ino: Inode, n: nat, need: nat,
                      direct: seq<Word>, got: seq<Word>, tb: Word, garbage: seq<Word>, table: seq<Word>,
                      more: seq<Word>, blocks: seq<Word>)
    requires HasFile(img, i, ino, n) && need - n + 1 <= |Unused(img)|
    requires TableAdded(img, img1, img2, img3, ino.blocks, n, need, direct, got, tb, garbage, table, more)
    requires |direct| == NDIRECT + 1 && blocks == direct[NDIRECT := tb]
    ensures |table| == NINDIRECT && Plan(img, img3, i, Listed(blocks, table, need))
  {
    AddedTable(img, img1, img2, img3, i, ino, got, tb, more, direct, blocks, garbage, table, n, need);
  }

  lemma AddedWithout(img: Image, img1: Image, img2: Image, img3: Image, slots: seq<Word>, n: nat, need: nat,
                     direct: seq<Word>, got: seq<Word>, tb: Word, garbage: seq<Word>, table: seq<Word>,
                     more: seq<Word>, blocks: seq<Word>)
    requires TableAdded(img, img1, img2, img3, slots, n, need, direct, got, tb, garbage, table, more)
    requires |direct| == NDIRECT + 1 && blocks == direct[NDIRECT := tb] && need - n + 1 > |Unused(img)|
    ensures |table| == NINDIRECT && !AllData(Listed(blocks, table, need))
  {
    if !AllData(got) {
      FilledStray(direct, slots, n, NDIRECT, got, NDIRECT);
      assert blocks[..NDIRECT] == direct[..NDIRECT];
    } else if DataBlock(tb) {
      FilledStray(table, garbage, 0, need - NDIRECT, more, need - NDIRECT);
    }
    ListedStray(blocks, table, need);
  }

  /** From exactly NDIRECT blocks, with room and without. */
  lemma GrewFull(img: Image, img1: Image, i: nat, ino: Inode, garbage: seq<Word>, table: seq<Word>, got: seq<Word>,
                 n: nat, mem: seq<Byte>)
    requires Sound(img) && Live(img, i) && Count(Ino(img, i).size) == NDIRECT && n == Count(ino.size)
    requires NDIRECT < n <= 2 * NDIRECT + 1 && n * BLOCK_SIZE <= |mem| && |garbage| == NINDIRECT
    requires ino.kind == Ino(img, i).kind && ino.blocks == Ino(img, i).blocks
    requires AllocatedInto(img, img1, garbage, 0, n - NDIRECT, table, got)
    ensures |table| == NINDIRECT
    ensures Room(img, i, n) ==> Growing(img, img1, i, ino, table, n, mem)
    ensures !Room(img, i, n) ==> !AllData(Listed(ino.blocks, table, n))
  {
    if Room(img, i, n) {
      GrowingBy(img, img1, i, ino, garbage, table, got, n, mem);
    } else {
      FilledStray(table, garbage, 0, n - NDIRECT, got, n - NDIRECT);
      ListedStray(ino.blocks, table, n);
    }
  }

  /** Every slot before the old last block and behind the new one is as it was. */
  ghost predicate SlotsKept(slots: seq<Word>, slots': seq<Word>, origin: nat, need: nat)
    requires |slots| == |slots'| == NDIRECT + 1
  {
    forall k :: 0 <= k < NDIRECT + 1 && (k < origin || need <= k) ==> slots'[k] == slots[k]
  }

  /** The disk has the blocks that a size of `need` blocks takes. */
  ghost predicate Room(img: Image, i: nat, need: nat)
    requires |img| == BLOCK_NUM && Live(img, i)
  {
    NewBlocks(Count(Ino(img, i).size), need) <= |Unused(img)|
  }

  /** A disk with room: the file can take a size of `need` blocks without harm. */
  ghost predicate Growable(img: Image, i: nat, need: nat)
    requires |img| == BLOCK_NUM && Live(img, i)
  {
    Count(Ino(img, i).size) == NDIRECT < need ==> SlotSpare(img, i)
  }

  /** What append_block does to file i, which exists. */
  ghost predicate AppendedBlock(img: Image, img': Image, i: nat, bid: Word) {
    && |img| == BLOCK_NUM && |img'| == BLOCK_NUM && Live(img, i) && Live(img', i)
    && Ino(img', i).size == Ino(img, i).size + BLOCK_SIZE && Ino(img', i).kind == Ino(img, i).kind
    && var n := Count(Ino(img, i).size);
    && (n < NDIRECT ==> Ino(img', i).blocks == Ino(img, i).blocks[n := bid])
    && (Sound(img') <==> |Unused(img)| >= AppendTakes(n))
    && (Sound(img') ==>
          Appended(img, img', i, bid) && Least(img, bid) && |Unused(img')| == |Unused(img)| - AppendTakes(n))
  }

  lemma DirectAppended(img: Image, img1: Image, img2: Image, i: nat, ino: Inode, ino': Inode, bid: Word, n: nat)
    requires HasFile(img, i, ino, n) && n < NDIRECT && Allocated(img, img1, bid) && Stored(img1, img2, i, ino')
    requires ino'.kind == ino.kind && ino'.size == ino.size + BLOCK_SIZE && ino'.blocks == ino.blocks[n := bid]
    ensures AppendedBlock(img, img2, i, bid)
  {
    CountNext(ino.size, ino'.size);
    SameBitmap(img1, img2);
    if Unused(img) != {} {
      AppendDirect(img, img1, img2, i, ino, ino', bid);
    } else {
      assert ino'.blocks[..n + 1][n] == bid;
      DirectStray(img2, i, n + 1);
    }
  }

  /** The lists for one block more behind a table: with room as planned, without room with a stray id. */
  ghost predicate Listing(img: Image, img2: Image, i: nat, ino: Inode, blocks: seq<Word>, table: seq<Word>,
                          n: nat, bid: Word) {
    && |img| == BLOCK_NUM && |img2| == BLOCK_NUM && |blocks| == NDIRECT + 1 && |table| == NINDIRECT
    && NDIRECT <= n < MAXFILE
    && (|Unused(img)| >= AppendTakes(n) ==>
          && Extended(img, img2, i, ino, blocks, table, n, bid) && Least(img, bid)
          && |Unused(img2)| == |Unused(img)| - AppendTakes(n))
    && (|Unused(img)| < AppendTakes(n) ==> !AllData(Listed(blocks, table, n + 1)))
  }

  lemma FirstListing(img: Image, img1: Image, img2: Image, i: nat, ino: Inode, bid: Word, tb: Word, table: seq<Word>)
    requires HasFile(img, i, ino, NDIRECT) && Shape(ino) && Allocated(img, img1, bid) && Allocated(img1, img2, tb)
    requires |table| == NINDIRECT && table[0] == bid
    ensures Listing(img, img2, i, ino, ino.blocks[NDIRECT := tb], table, NDIRECT, bid)
  {
    var blocks := ino.blocks[NDIRECT := tb];
    if |Unused(img)| >= 2 {
      FirstIndirect(img, img1, img2, i, ino, bid, tb, table);
      FirstIndirectIds(img, ino, tb, table);
    } else {
      assert table[..1][0] == bid && blocks[NDIRECT] == tb;
      ListedStray(blocks, table, NDIRECT + 1);
    }
  }

  lemma NextExtended(img: Image, img1: Image, i: nat, ino: Inode, bid: Word, t: seq<Word>, table: seq<Word>, n: nat)
    requires HasTable(img, i, ino, n, t) && n < MAXFILE && Took(img, img1, [bid]) && bid in Unused(img)
    requires DataBlock(ino.blocks[NDIRECT]) && table == t[n - NDIRECT := bid]
    ensures Extended(img, img1, i, ino, ino.blocks, table, n, bid)
  {
    NextIndirect(img, img1, i, ino, bid, t, n);
    NextIndirectIds(img, ino, t, bid, n);
  }

  lemma NextStray(blocks: seq<Word>, table: seq<Word>, n: nat)
    requires |blocks| == NDIRECT + 1 && |table| == NINDIRECT && NDIRECT < n < MAXFILE && !DataBlock(table[n - NDIRECT])
    ensures !AllData(Listed(blocks, table, n + 1))
  {
    assert table[..n + 1 - NDIRECT][n - NDIRECT] == table[n - NDIRECT];
    ListedStray(blocks, table, n + 1);
  }

  lemma NextListing(img: Image, img1: Image, i: nat, ino: Inode, bid: Word, t: seq<Word>, table: seq<Word>, n: nat)
    requires HasTable(img, i, ino, n, t) && n < MAXFILE && Allocated(img, img1, bid) && DataBlock(ino.blocks[NDIRECT])
    requires table == t[n - NDIRECT := bid]
    ensures Listing(img, img1, i, ino, ino.blocks, table, n, bid)
  {
    if Unused(img) != {} {
      NextExtended(img, img1, i, ino, bid, t, table, n);
    } else {
      NextStray(ino.blocks, table, n);
    }
  }

  lemma ListingStored(img: Image, img2: Image, img4: Image, i: nat, ino: Inode, ino': Inode, blocks: seq<Word>,
                      table: seq<Word>, n: nat, bid: Word)
    requires HasFile(img, i, ino, n) && Listing(img, img2, i, ino, blocks, table, n, bid)
    requires |img4| == BLOCK_NUM && Ino(img4, i) == ino'
    requires ino'.kind == ino.kind && ino'.size == ino.size + BLOCK_SIZE && ino'.blocks == blocks
    requires DataBlock(blocks[NDIRECT]) ==>
               TableStored(img2, img4, i, ino', blocks[NDIRECT], table) && Unused(img4) == Unused(img2)
    ensures AppendedBlock(img, img4, i, bid)
  {
    CountNext(ino.size, ino'.size);
    if |Unused(img)| >= AppendTakes(n) {
      AppendIndirect(img, img2, img4, i, ino, ino', blocks, table, n, bid);
    } else {
      TableStray(img4, i, table, n + 1);
    }
  }

  /** What write_file does to file i, which exists. */
  ghost predicate WroteFile(img: Image, img': Image, i: nat, mem: seq<Byte>, size: Word) {
    && |img| == BLOCK_NUM && |img'| == BLOCK_NUM && Live(img, i) && Live(img', i) && size <= |mem|
    && Ino(img', i).size == size && Ino(img', i).kind == Ino(img, i).kind
    && SlotsKept(Ino(img, i).blocks, Ino(img', i).blocks, Count(Ino(img, i).size), Count(size))
    && (Sound(img') <==> Room(img, i, Count(size)) && Growable(img, i, Count(size)))
    && (Sound(img') ==> Written(img, img', i, ZeroPrefix(mem, Lost(Count(size)))[..size]))
  }

  /** A disk with nothing on it but the root directory, which is empty. */
  ghost predicate Formatted(img: Image) {
    && Sound(img) && Marks(img) == {} && (forall i: nat :: Live(img, i) <==> i == 1)
    && Ino(img, 1).kind == T_DIR && Ino(img, 1).size == 0
  }

  class InodeManager {
    const bm: BlockManager

    ghost predicate Valid()
      reads bm, bm.blocks
    {
      bm.Valid() && bm.nblocks == BLOCK_NUM && bm.ninodes == INODE_NUM && |bm.img| == BLOCK_NUM
    }

    /** An empty disk whose only live inode is the root directory. */
    constructor (now: Word, garbage: seq<Word>)
      requires |garbage| == NDIRECT + 1
      ensures Valid() && fresh(bm) && fresh(bm.blocks)
      ensures Formatted(bm.img)
    {
      bm := new BlockManager();
      new;
      ghost var img := bm.img;
      ZeroImage(img);
      var root := AllocInode(T_DIR, now, garbage);
      assert root == 1 by { assert !Live(img, 1); }
      forall i: nat ensures Live(bm.img, i) <==> i == 1 {
        assert i != 1 && i < INODE_NUM ==> bm.img[Home(i)] == img[Home(i)];
      }
    }

    /** None when the number is out of range or the inode is free. */
    method GetInode(inum: nat) returns (r: Option<Inode>)
      requires Valid()
      ensures r.Some? <==> Live(bm.img, inum)
      ensures r.Some? ==> r.value == Ino(bm.img, inum)
    {
      if inum >= INODE_NUM {
        return None;
      }
      var buf: Block := *;
      buf := bm.ReadBlock(IBlock(inum, bm.nblocks), buf);
      var ino := InodeOf(buf);
      if ino.kind == 0 {
        return None;
      }
      r := Some(ino);
    }

    method PutInode(inum: nat, ino: Inode)
      requires Valid() && inum < INODE_NUM
      modifies bm`img, bm.blocks
      ensures Valid()
      ensures Stored(old(bm.img), bm.img, inum, ino)
      ensures Marks(bm.img) == Marks(old(bm.img)) && Unused(bm.img) == Unused(old(bm.img))
    {
      var buf: Block := *;
      buf := bm.ReadBlock(IBlock(inum, bm.nblocks), buf);
      InodeRoundTrip(buf, ino);
      bm.WriteBlock(IBlock(inum, bm.nblocks), InodeInto(buf, ino));
      SameBitmap(old(bm.img), bm.img);
    }

    /** The first free inode from 1 on becomes an empty file; 0 when there is none.  The block
        ids of the new inode are whatever the memory held. */
    method AllocInode(kind: nat, now: Word, garbage: seq<Word>) returns (inum: nat)
      requires Valid() && |garbage| == NDIRECT + 1
      modifies bm`img, bm.blocks
      ensures Valid()
      ensures inum == 0 ==> bm.img == old(bm.img) && forall i: nat :: 1 <= i < INODE_NUM ==> Live(bm.img, i)
      ensures inum != 0 ==>
                && inum < INODE_NUM && !Live(old(bm.img), inum)
                && (forall i: nat :: 1 <= i < inum ==> Live(old(bm.img), i))
                && Stored(old(bm.img), bm.img, inum, Inode(kind % 65536, 0, now, now, now, garbage))
                && Marks(bm.img) == Marks(old(bm.img))
      ensures Sound(old(bm.img)) ==> Sound(bm.img) && (inum != 0 ==> Untouched(old(bm.img), bm.img, inum))
    {
      var i := 1;
      while i < bm.ninodes
        invariant Valid() && 1 <= i <= INODE_NUM
        invariant forall j: nat :: 1 <= j < i ==> Live(bm.img, j)
        invariant bm.img == old(bm.img)
      {
        var ino := GetInode(i);
        if ino.None? {
          PutInode(i, Inode(kind % 65536, 0, now, now, now, garbage));
          if Sound(old(bm.img)) {
            EffectSound(old(bm.img), bm.img, i, {}, {}, {});
          }
          return i;
        }
        i := i + 1;
      }
      return 0;
    }

    method Alloc() returns (id: Word)
      requires Valid()
      modifies bm`img, bm.blocks
      ensures Valid() && Allocated(old(bm.img), bm.img, id)
    {
      ghost var img := bm.img;
      if Unused(img) != {} { AllocTakes(img); }
      id := bm.AllocBlock();
      if Unused(img) == {} && id != 0 { AllocOverruns(img, id); }
    }

    /** free_block.  An id beyond the bitmap block has its bit in some other block. */
    method Free(id: Word)
      requires Valid()
      modifies bm`img, bm.blocks
      ensures Valid() && bm.img == FreeOf(old(bm.img), id)
    {
      bm.FreeBlock(id);
    }

    /** The loops that put newly allocated ids into slots lo to hi - 1 of a list of ids. */
    method AllocInto(slots: seq<Word>, lo: nat, hi: nat) returns (r: seq<Word>, ghost got: seq<Word>)
      requires Valid() && lo <= hi <= |slots|
      modifies bm`img, bm.blocks
      ensures Valid() && AllocatedInto(old(bm.img), bm.img, slots, lo, hi, r, got)
    {
      r, got := slots, [];
      TookNothing(bm.img);
      var i := lo;
      while i < hi
        invariant Valid() && lo <= i <= hi && AllocatedInto(old(bm.img), bm.img, slots, lo, i, r, got)
      {
        ghost var img := bm.img;
        var id := Alloc();
        AllocatedMore(old(bm.img), img, bm.img, slots, lo, i, r, got, id);
        r := r[i := id];
        got := got + [id];
        i := i + 1;
      }
    }

    /** The loops that free the blocks in slots lo to hi - 1. */
    method FreeRange(slots: seq<Word>, lo: nat, hi: nat)
      requires Valid() && lo <= hi <= |slots|
      modifies bm`img, bm.blocks
      ensures Valid() && bm.img == FreeEach(old(bm.img), slots[lo..hi])
      ensures (forall k :: lo <= k < hi ==> slots[k] < BPB) ==> Freed(old(bm.img), bm.img, slots[lo..hi])
    {
      var i := lo;
      while i < hi
        invariant Valid() && lo <= i <= hi && bm.img == FreeEach(old(bm.img), slots[lo..i])
      {
        FreeEachMore(old(bm.img), slots[lo..i], slots[i]);
        Free(slots[i]);
        assert slots[lo..i + 1] == slots[lo..i] + [slots[i]];
        i := i + 1;
      }
      if forall k :: lo <= k < hi ==> slots[k] < BPB { FreeEachFrees(old(bm.img), slots[lo..hi]); }
    }

    // ----- writing -----

    /** The loops over the first n slots: zero the block, then copy the next chunk.  `fine` says that
        they name different data blocks. */
    method WriteRun(slots: seq<Word>, n: nat, mem: seq<Byte>, ghost fine: bool)
      requires Valid() && n <= |slots| && n * BLOCK_SIZE <= |mem|
      requires fine ==> Distinct(slots[..n]) && AllData(slots[..n])
      modifies bm`img, bm.blocks
      ensures Valid()
      ensures fine ==> WroteRun(old(bm.img), bm.img, slots, n, mem)
    {
      assert Elems(slots[..0]) == {};
      var i := 0;
      while i < n
        invariant Valid() && 0 <= i <= n
        invariant fine ==> WroteRun(old(bm.img), bm.img, slots, i, mem)
      {
        ghost var img := bm.img;
        bm.WriteBlock(slots[i], Zero());
        bm.WriteBlock(slots[i], Chunk(mem, i * BLOCK_SIZE));
        if fine {
          RunReady(slots, n, i);
          assert bm.img == img[slots[i] := Chunk(mem, i * BLOCK_SIZE)];
          WroteRunMore(old(bm.img), img, bm.img, slots, i, mem);
        }
        i := i + 1;
      }
    }

    /** The loop over the table: it zeroes blocks[i], not indirect_blockid[i].  `apart` says that
        all the blocks named are different blocks of the disk. */
    method WriteTable(direct: seq<Word>, table: seq<Word>, n: nat, mem: seq<Byte>, ghost apart: bool)
      requires Valid() && |direct| == NDIRECT + 1 && |table| == NINDIRECT && 0 < n <= NDIRECT + 1
      requires (NDIRECT + n) * BLOCK_SIZE <= |mem|
      requires apart ==> Distinct(Listed(direct, table, NDIRECT + n)) && OnDisk(direct, table, n)
      modifies bm`img, bm.blocks
      ensures Valid() && OnlyThese(old(bm.img), bm.img, Touched(direct, table, n))
      ensures apart ==> WroteTable(old(bm.img), bm.img, direct, table, n, mem)
    {
      assert Elems(direct[..0]) == {} && Elems(table[..0]) == {};
      var i := 0;
      while i < n
        invariant Valid() && 0 <= i <= n && OnlyThese(old(bm.img), bm.img, Touched(direct, table, n))
        invariant apart ==> WroteTable(old(bm.img), bm.img, direct, table, i, mem)
      {
        WriteRound(direct, table, n, i, mem, old(bm.img), apart);
        i := i + 1;
      }
    }

    method WriteRound(direct: seq<Word>, table: seq<Word>, n: nat, i: nat, mem: seq<Byte>,
                      ghost first: Image, ghost apart: bool)
      requires Valid() && |direct| == NDIRECT + 1 && |table| == NINDIRECT && i < n <= NDIRECT + 1
      requires (NDIRECT + n) * BLOCK_SIZE <= |mem| && OnlyThese(first, bm.img, Touched(direct, table, n))
      requires apart ==> Distinct(Listed(direct, table, NDIRECT + n)) && OnDisk(direct, table, n)
      requires apart ==> WroteTable(first, bm.img, direct, table, i, mem)
      modifies bm`img, bm.blocks
      ensures Valid() && OnlyThese(first, bm.img, Touched(direct, table, n))
      ensures apart ==> WroteTable(first, bm.img, direct, table, i + 1, mem)
    {
      ghost var img := bm.img;
      TouchedEach(direct, table, n, i);
      bm.WriteBlock(direct[i], Zero());
      OneMore(first, img, Touched(direct, table, n), direct[i], Zero());
      ghost var mid := bm.img;
      bm.WriteBlock(table[i], Chunk(mem, (NDIRECT + i) * BLOCK_SIZE));
      OneMore(first, mid, Touched(direct, table, n), table[i], Chunk(mem, (NDIRECT + i) * BLOCK_SIZE));
      if apart {
        ListedApart(direct, table, n, i);
        WroteTableMore(first, img, bm.img, direct, table, i, mem);
      }
    }

    /** Cases 1-1 to 1-4: at most NDIRECT blocks are needed. */
    method ReshapeDirect(ghost inum: nat, ino: Inode, origin: nat, need: nat) returns (blocks: seq<Word>)
      requires Valid() && HasFile(bm.img, inum, ino, origin) && need <= NDIRECT
      modifies bm`img, bm.blocks
      ensures Valid() && |blocks| == NDIRECT + 1 && SlotsKept(ino.blocks, blocks, origin, need)
      ensures NewBlocks(origin, need) <= |Unused(old(bm.img))| ==>
                Plan(old(bm.img), bm.img, inum, Listed(blocks, [], need))
      ensures NewBlocks(origin, need) > |Unused(old(bm.img))| ==> !AllData(blocks[..need])
    {
      ghost var img := bm.img;
      blocks := ino.blocks;
      if origin < need {
        ghost var got;
        blocks, got := AllocInto(ino.blocks, origin, need);
        GrewDirect(img, bm.img, inum, ino, got, blocks, origin, need);
      } else if origin == need {
        SameDirect(img, inum, ino, need);
      } else if origin <= NDIRECT {
        DirectOnDisk(img, inum);
        FreeRange(ino.blocks, need, origin);
        Shrink13(img, bm.img, inum, ino, origin, need);
      } else {
        DropTable(inum, ino, origin, need);
      }
    }

    /** Case 1-4: the file had a table and needs it no more. */
    method DropTable(ghost inum: nat, ino: Inode, origin: nat, need: nat)
      requires Valid() && HasFile(bm.img, inum, ino, origin) && need <= NDIRECT < origin
      modifies bm`img, bm.blocks
      ensures Valid()
      ensures Plan(old(bm.img), bm.img, inum, Listed(ino.blocks, [], need))
    {
      ghost var img := bm.img;
      var table := ReadTable(inum, ino, origin);
      FreeRange(table, 0, origin - NDIRECT);
      ghost var mid := bm.img;
      FreeRange(ino.blocks, need, NDIRECT + 1);
      Shrink14(img, mid, bm.img, inum, ino, table, origin, need);
    }

    /** The table of a file that has one. */
    method ReadTable(ghost inum: nat, ino: Inode, ghost n: nat) returns (table: seq<Word>)
      requires Valid() && HasFile(bm.img, inum, ino, n) && n > NDIRECT
      ensures HasTable(bm.img, inum, ino, n, table)
      ensures forall k :: 0 <= k < NDIRECT + 1 ==> DataBlock(ino.blocks[k])
      ensures forall k :: 0 <= k < n - NDIRECT ==> DataBlock(table[k])
    {
      OldBlocks(bm.img, inum);
      var buf: Block := *;
      buf := bm.ReadBlock(ino.blocks[NDIRECT], buf);
      table := TableOf(buf);
      ListedOnDisk(bm.img, inum, table);
    }

    /** Cases 2-1 to 2-4: a table is needed.  For a file of exactly NDIRECT blocks see WriteFromFull. */
    method ReshapeIndirect(ghost inum: nat, ino: Inode, origin: nat, need: nat)
      returns (blocks: seq<Word>, table: seq<Word>)
      requires Valid() && HasFile(bm.img, inum, ino, origin) && origin != NDIRECT && NDIRECT < need <= MAXFILE
      modifies bm`img, bm.blocks
      ensures Valid() && |blocks| == NDIRECT + 1 && |table| == NINDIRECT && SlotsKept(ino.blocks, blocks, origin, need)
      ensures NewBlocks(origin, need) <= |Unused(old(bm.img))| ==>
                Plan(old(bm.img), bm.img, inum, Listed(blocks, table, need))
      ensures NewBlocks(origin, need) > |Unused(old(bm.img))| ==> !AllData(Listed(blocks, table, need))
    {
      if origin < NDIRECT {
        blocks, table := AddTable(inum, ino, origin, need);
      } else {
        blocks := ino.blocks;
        table := ResizeTable(inum, ino, origin, need);
      }
    }

    /** Cases 2-2 to 2-4: the file has a table and keeps it. */
    method ResizeTable(ghost inum: nat, ino: Inode, origin: nat, need: nat) returns (table: seq<Word>)
      requires Valid() && HasFile(bm.img, inum, ino, origin) && origin > NDIRECT && NDIRECT < need <= MAXFILE
      modifies bm`img, bm.blocks
      ensures Valid() && |table| == NINDIRECT
      ensures NewBlocks(origin, need) <= |Unused(old(bm.img))| ==>
                Plan(old(bm.img), bm.img, inum, Listed(ino.blocks, table, need))
      ensures NewBlocks(origin, need) > |Unused(old(bm.img))| ==> !AllData(Listed(ino.blocks, table, need))
    {
      table := ReadTable(inum, ino, origin);
      if need > origin {
        table := GrowTable(inum, ino, table, origin, need);
      } else if need == origin {
        SameIndirect(bm.img, inum, ino, table, need);
      } else {
        ShrinkTable(inum, ino, table, origin, need);
      }
    }

    method GrowTable(ghost inum: nat, ghost ino: Inode, before: seq<Word>, origin: nat, need: nat)
      returns (table: seq<Word>)
      requires Valid() && HasTable(bm.img, inum, ino, origin, before) && origin < need <= MAXFILE
      modifies bm`img, bm.blocks
      ensures Valid() && |table| == NINDIRECT
      ensures need - origin <= |Unused(old(bm.img))| ==>
                Plan(old(bm.img), bm.img, inum, Listed(ino.blocks, table, need))
      ensures need - origin > |Unused(old(bm.img))| ==> !AllData(Listed(ino.blocks, table, need))
    {
      ghost var img, got := bm.img, [];
      table, got := AllocInto(before, origin - NDIRECT, need - NDIRECT);
      GrewTable(img, bm.img, inum, ino, got, before, table, origin, need);
    }

    method ShrinkTable(ghost inum: nat, ghost ino: Inode, table: seq<Word>, origin: nat, need: nat)
      requires Valid() && HasTable(bm.img, inum, ino, origin, table) && NDIRECT < need < origin
      requires forall k :: need - NDIRECT <= k < origin - NDIRECT ==> table[k] < BPB
      modifies bm`img, bm.blocks
      ensures Valid() && Plan(old(bm.img), bm.img, inum, Listed(ino.blocks, table, need))
    {
      ghost var img, gone := bm.img, table[need - NDIRECT..origin - NDIRECT];
      FreeRange(table, need - NDIRECT, origin - NDIRECT);
      Shrink24(img, bm.img, inum, ino, table, gone, origin, need);
    }

    /** Case 2-1: the file gets its first table. */
    method AddTable(ghost inum: nat, ino: Inode, origin: nat, need: nat)
      returns (blocks: seq<Word>, table: seq<Word>)
      requires Valid() && HasFile(bm.img, inum, ino, origin) && origin < NDIRECT < need <= MAXFILE
      modifies bm`img, bm.blocks
      ensures Valid() && |blocks| == NDIRECT + 1 && |table| == NINDIRECT && SlotsKept(ino.blocks, blocks, origin, need)
      ensures need - origin + 1 <= |Unused(old(bm.img))| ==>
                Plan(old(bm.img), bm.img, inum, Listed(blocks, table, need))
      ensures need - origin + 1 > |Unused(old(bm.img))| ==> !AllData(Listed(blocks, table, need))
    {
      ghost var img, got, more := bm.img, [], [];
      var direct;
      direct, got := AllocInto(ino.blocks, origin, NDIRECT);
      ghost var img1 := bm.img;
      var tb := Alloc();
      ghost var img2 := bm.img;
      blocks := direct[NDIRECT := tb];
      var garbage: Block := *;
      table, more := AllocInto(TableOf(garbage), 0, need - NDIRECT);
      if need - origin + 1 <= |Unused(img)| {
        AddedWithRoom(img, img1, img2, bm.img, inum, ino, origin, need, direct, got, tb, TableOf(garbage), table, more,
                      blocks);
      } else {
        AddedWithout(img, img1, img2, bm.img, ino.blocks, origin, need, direct, got, tb, TableOf(garbage), table, more,
                     blocks);
      }
    }

    /** write_file when at most NDIRECT blocks are needed. */
    method WriteDirect(inum: nat, ino: Inode, mem: seq<Byte>, size: Word, now: Word)
      requires Valid() && HasFile(bm.img, inum, ino, Count(ino.size))
      requires Count(size) <= NDIRECT && Count(size) * BLOCK_SIZE <= |mem|
      modifies bm`img, bm.blocks
      ensures Valid() && Live(bm.img, inum) && Ino(bm.img, inum).size == size && Ino(bm.img, inum).kind == ino.kind
      ensures SlotsKept(ino.blocks, Ino(bm.img, inum).blocks, Count(ino.size), Count(size))
      ensures Sound(bm.img) <==> Room(old(bm.img), inum, Count(size))
      ensures Sound(bm.img) ==> Written(old(bm.img), bm.img, inum, mem[..size])
    {
      ghost var img := bm.img;
      var need := Count(size);
      ghost var room := Room(img, inum, need);
      var blocks := ReshapeDirect(inum, ino, Count(ino.size), need);
      ghost var img1 := bm.img;
      if room { PlanOnDisk(img, img1, inum, blocks[..need]); }
      WriteRun(blocks, need, mem, room);
      ghost var img2 := bm.img;
      var ino' := ino.(blocks := blocks, size := size, ctime := now, mtime := now);
      PutInode(inum, ino');
      if room {
        DirectDone(img, img1, img2, bm.img, inum, ino', mem);
      } else {
        DirectStray(bm.img, inum, need);
      }
    }

    /** The direct blocks, then the indirect ones.  `fine` says that the direct ones are different
        data blocks, `apart` that all of them are. */
    method WriteBoth(blocks: seq<Word>, table: seq<Word>, need: nat, mem: seq<Byte>,
                     ghost fine: bool, ghost apart: bool)
      returns (ghost mid: Image)
      requires Valid() && |blocks| == NDIRECT + 1 && |table| == NINDIRECT
      requires NDIRECT < need <= 2 * NDIRECT + 1 && need * BLOCK_SIZE <= |mem|
      requires fine ==> Distinct(blocks[..NDIRECT]) && AllData(blocks[..NDIRECT])
      requires apart ==> Distinct(Listed(blocks, table, need)) && OnDisk(blocks, table, need - NDIRECT)
      modifies bm`img, bm.blocks
      ensures Valid()
      ensures fine ==> TwoLoops(old(bm.img), mid, bm.img, blocks, table, need - NDIRECT, mem, apart)
    {
      WriteRun(blocks, NDIRECT, mem, fine);
      mid := bm.img;
      WriteTable(blocks, table, need - NDIRECT, mem, apart);
    }

    /** The table goes to whatever its slot names, then the inode is stored. */
    method StoreSlot(inum: nat, ino: Inode, table: seq<Word>) returns (ghost mid: Image)
      requires Valid() && inum < INODE_NUM && |table| == NINDIRECT
      modifies bm`img, bm.blocks
      ensures Valid() && Stored(mid, bm.img, inum, ino) && Unused(bm.img) == Unused(mid)
      ensures mid == if ino.blocks[NDIRECT] < |old(bm.img)|
                     then old(bm.img)[ino.blocks[NDIRECT] := TableBlock(table)]
                     else old(bm.img)
      ensures DataBlock(ino.blocks[NDIRECT]) ==> bm.img[ino.blocks[NDIRECT]] == TableBlock(table)
    {
      bm.WriteBlock(ino.blocks[NDIRECT], TableBlock(table));
      mid := bm.img;
      PutInode(inum, ino);
    }

    /** write_file when a table is needed. */
    method WriteIndirect(inum: nat, ino: Inode, mem: seq<Byte>, size: Word, now: Word)
      requires Valid() && HasFile(bm.img, inum, ino, Count(ino.size)) && Count(ino.size) != NDIRECT
      requires NDIRECT < Count(size) <= 2 * NDIRECT + 1 && Count(size) * BLOCK_SIZE <= |mem|
      modifies bm`img, bm.blocks
      ensures Valid() && Live(bm.img, inum) && Ino(bm.img, inum).size == size && Ino(bm.img, inum).kind == ino.kind
      ensures SlotsKept(ino.blocks, Ino(bm.img, inum).blocks, Count(ino.size), Count(size))
      ensures Sound(bm.img) <==> Room(old(bm.img), inum, Count(size))
      ensures Sound(bm.img) ==> Written(old(bm.img), bm.img, inum, ZeroPrefix(mem, Lost(Count(size)))[..size])
    {
      ghost var img := bm.img;
      var need := Count(size);
      ghost var room := Room(img, inum, need);
      var blocks, table := ReshapeIndirect(inum, ino, Count(ino.size), need);
      ghost var img1 := bm.img;
      if room {
        PlanOnDisk(img, img1, inum, Listed(blocks, table, need));
        IndirectReady(blocks, table, need);
      }
      ghost var img2 := WriteBoth(blocks, table, need, mem, room, room);
      var ino' := ino.(blocks := blocks, size := size, ctime := now, mtime := now);
      StoreWritten(inum, ino', table, need, mem, room, img, img1, img2);
    }

    method StoreWritten(inum: nat, ino: Inode, table: seq<Word>, ghost need: nat, ghost mem: seq<Byte>,
                        ghost room: bool, ghost img: Image, ghost img1: Image, ghost img2: Image)
      requires Valid() && Sound(img) && inum < INODE_NUM && ino.kind != 0 && |table| == NINDIRECT
      requires need == Count(ino.size) && NDIRECT < need <= 2 * NDIRECT + 1 && need * BLOCK_SIZE <= |mem|
      requires room ==> Plan(img, img1, inum, Listed(ino.blocks, table, need)) && DataBlock(ino.blocks[NDIRECT])
      requires room ==> TwoLoops(img1, img2, bm.img, ino.blocks, table, need - NDIRECT, mem, true)
      requires !room ==> !AllData(Listed(ino.blocks, table, need))
      modifies bm`img, bm.blocks
      ensures Valid() && Ino(bm.img, inum) == ino && (Sound(bm.img) <==> room)
      ensures room ==> Written(img, bm.img, inum, ZeroPrefix(mem, Lost(need))[..ino.size])
    {
      ghost var img3 := bm.img;
      ghost var img4 := StoreSlot(inum, ino, table);
      if room {
        IndirectDone(img, img1, img2, img3, img4, bm.img, inum, ino, table, need, mem);
      } else {
        TableStray(bm.img, inum, table, need);
      }
    }

    /** write_file from exactly NDIRECT blocks to more: no block is allocated for the table. */
    method WriteFromFull(inum: nat, ino: Inode, mem: seq<Byte>, size: Word, now: Word)
      requires Valid() && HasFile(bm.img, inum, ino, NDIRECT)
      requires NDIRECT < Count(size) <= 2 * NDIRECT + 1 && Count(size) * BLOCK_SIZE <= |mem|
      modifies bm`img, bm.blocks
      ensures Valid() && Live(bm.img, inum) && Ino(bm.img, inum).size == size && Ino(bm.img, inum).kind == ino.kind
      ensures Ino(bm.img, inum).blocks == ino.blocks
      ensures Sound(bm.img) <==> Room(old(bm.img), inum, Count(size)) && SlotSpare(old(bm.img), inum)
      ensures Sound(bm.img) ==> Written(old(bm.img), bm.img, inum, ZeroPrefix(mem, Lost(Count(size)))[..size])
    {
      ghost var img := bm.img;
      var need := Count(size);
      ghost var room := Room(img, inum, need);
      var buf: Block := *;
      buf := bm.ReadBlock(ino.blocks[NDIRECT], buf);
      var table;
      ghost var got;
      table, got := AllocInto(TableOf(buf), 0, need - NDIRECT);
      var ino' := ino.(size := size, ctime := now, mtime := now);
      GrewFull(img, bm.img, inum, ino', TableOf(buf), table, got, need, mem);
      WriteGrown(inum, ino', table, need, mem, room, img, bm.img);
    }

    method WriteGrown(inum: nat, ino: Inode, table: seq<Word>, need: nat, mem: seq<Byte>,
                      ghost room: bool, ghost img: Image, ghost img1: Image)
      requires Valid() && bm.img == img1 && |img| == BLOCK_NUM && inum < INODE_NUM && ino.kind != 0
      requires need == Count(ino.size) && NDIRECT < need <= 2 * NDIRECT + 1 && need * BLOCK_SIZE <= |mem|
      requires |table| == NINDIRECT
      requires room ==> Growing(img, img1, inum, ino, table, need, mem)
      requires !room ==> !AllData(Listed(ino.blocks, table, need))
      modifies bm`img, bm.blocks
      ensures Valid() && Ino(bm.img, inum) == ino
      ensures Sound(bm.img) <==> room && SlotSpare(img, inum)
      ensures Sound(bm.img) ==> Written(img, bm.img, inum, ZeroPrefix(mem, Lost(need))[..ino.size])
    {
      if room {
        DirectData(img, inum);
        SpareReady(img, img1, inum, ino, table, need, mem);
      }
      ghost var img2 := WriteBoth(ino.blocks, table, need, mem, room, room && SlotSpare(img, inum));
      StoreGrown(inum, ino, table, need, mem, room, img, img1, img2);
    }

    method StoreGrown(inum: nat, ino: Inode, table: seq<Word>, ghost need: nat, ghost mem: seq<Byte>,
                      ghost room: bool, ghost img: Image, ghost img1: Image, ghost img2: Image)
      requires Valid() && |img| == BLOCK_NUM && inum < INODE_NUM && ino.kind != 0 && |table| == NINDIRECT
      requires need == Count(ino.size) && NDIRECT < need <= 2 * NDIRECT + 1
      requires room ==> Growing(img, img1, inum, ino, table, need, mem)
      requires room ==> TwoLoops(img1, img2, bm.img, ino.blocks, table, need - NDIRECT, mem, SlotSpare(img, inum))
      requires !room ==> !AllData(Listed(ino.blocks, table, need))
      modifies bm`img, bm.blocks
      ensures Valid() && Ino(bm.img, inum) == ino
      ensures Sound(bm.img) <==> room && SlotSpare(img, inum)
      ensures Sound(bm.img) ==> Written(img, bm.img, inum, ZeroPrefix(mem, Lost(need))[..ino.size])
    {
      ghost var img3 := bm.img;
      ghost var img4 := StoreSlot(inum, ino, table);
      if room {
        ghost var apart := SlotSpare(img, inum);
        LoopsAre(img1, img2, img3, img4, bm.img, inum, ino, table, need, mem, apart);
        GrownOutcome(img, img1, img2, img3, img4, bm.img, inum, ino, table, need, mem, apart);
      } else {
        TableStray(bm.img, inum, table, need);
      }
    }

    /** write_file of the first `size` bytes of mem.  The code copies whole blocks, so it reads mem
        up to the end of the last block; for more than NDIRECT + 1 indirect blocks it reads behind
        the inode's slots.  The image stays sound if and only if the disk has room and the file,
        when it grows from exactly NDIRECT blocks, happens to have a marked block that nobody owns
        in the table's slot. */
    method WriteFile(inum: nat, mem: seq<Byte>, size: Word, now: Word)
      requires Valid() && Sound(bm.img) && Count(size) * BLOCK_SIZE <= |mem|
      requires Live(bm.img, inum) && Count(size) <= MAXFILE ==> Count(size) <= 2 * NDIRECT + 1
      modifies bm`img, bm.blocks
      ensures Valid()
      ensures !Live(old(bm.img), inum) || Count(size) > MAXFILE ==> bm.img == old(bm.img)
      ensures Live(old(bm.img), inum) && Count(size) <= MAXFILE ==>
                WroteFile(old(bm.img), bm.img, inum, mem, size)
    {
      var got := GetInode(inum);
      if got.None? {
        return;
      }
      var ino := got.value;
      var need := Count(size);
      if need > MAXFILE {
        return;
      }
      if need <= NDIRECT {
        ZeroPrefixNone(mem);
        WriteDirect(inum, ino, mem, size, now);
      } else if Count(ino.size) == NDIRECT {
        WriteFromFull(inum, ino, mem, size, now);
      } else {
        WriteIndirect(inum, ino, mem, size, now);
      }
    }

    // ----- reading -----

    /** The loops that read the first n blocks of a list, one after the other. */
    method ReadRun(slots: seq<Word>, n: nat) returns (out: seq<Byte>)
      requires Valid() && n <= |slots| && forall k :: 0 <= k < n ==> slots[k] < BLOCK_NUM
      ensures out == Data(bm.img, slots[..n])
    {
      out := [];
      var i := 0;
      while i < n
        invariant 0 <= i <= n && out == Data(bm.img, slots[..i])
      {
        var buf: Block := *;
        buf := bm.ReadBlock(slots[i], buf);
        DataSnoc(bm.img, slots, i);
        out := out + buf;
        i := i + 1;
      }
    }

    /** read_file: None when the inode does not exist; otherwise the file's bytes, and a new atime. */
    method ReadFile(inum: nat, now: Word) returns (r: Option<seq<Byte>>)
      requires Valid() && Sound(bm.img)
      modifies bm`img, bm.blocks
      ensures Valid() && Sound(bm.img)
      ensures !Live(old(bm.img), inum) ==> r == None && bm.img == old(bm.img)
      ensures Live(old(bm.img), inum) ==>
                && r == Some(Contents(old(bm.img), Ino(old(bm.img), inum)))
                && Stored(old(bm.img), bm.img, inum, Ino(old(bm.img), inum).(atime := now))
    {
      var got := GetInode(inum);
      if got.None? {
        return None;
      }
      var ino := got.value;
      var bytes := ReadBytes(inum, ino);
      r := Some(bytes);
      PutInode(inum, ino.(atime := now));
      TouchSound(old(bm.img), bm.img, inum, ino.(atime := now));
    }

    method ReadBytes(ghost inum: nat, ino: Inode) returns (bytes: seq<Byte>)
      requires Valid() && Sound(bm.img) && Live(bm.img, inum) && ino == Ino(bm.img, inum)
      ensures bytes == Contents(bm.img, ino)
    {
      OwnedOnDisk(bm.img, ino);
      var out: seq<Byte>;
      if ino.size <= BLOCK_SIZE {
        var buf: Block := *;
        buf := bm.ReadBlock(ino.blocks[0], buf);
        out := buf;
        OneBlock(bm.img, ino, out);
      } else {
        var n := Count(ino.size);
        if n <= NDIRECT {
          DirectOnDisk(bm.img, inum);
          out := ReadRun(ino.blocks, n);
        } else {
          var table := ReadTable(inum, ino, n);
          out := ReadRun(ino.blocks, NDIRECT);
          var more := ReadRun(table, n - NDIRECT);
          DataConcat(bm.img, ino.blocks[..NDIRECT], table[..n - NDIRECT]);
          out := out + more;
        }
      }
      bytes := out[..ino.size];
    }

    /** get_block_ids: the source dereferences null when the inode does not exist. */
    method GetBlockIds(inum: nat) returns (ids: seq<Word>)
      requires Valid() && Sound(bm.img) && Live(bm.img, inum)
      ensures ids == Ids(bm.img, Ino(bm.img, inum))
    {
      var got := GetInode(inum);
      var ino := got.value;
      var n := Count(ino.size);
      if n <= NDIRECT {
        ids := CopyIds([], ino.blocks, n);
        IdsByTable(bm.img, ino, []);
      } else {
        ids := IndirectIds(inum, ino, n);
      }
    }

    method IndirectIds(ghost inum: nat, ino: Inode, n: nat) returns (ids: seq<Word>)
      requires Valid() && HasFile(bm.img, inum, ino, n) && n > NDIRECT
      ensures Shape(ino) && ids == Ids(bm.img, ino)
    {
      var direct := CopyIds([], ino.blocks, NDIRECT);
      var table := ReadTable(inum, ino, n);
      ids := CopyIds(direct, table, n - NDIRECT);
      IdsByTable(bm.img, ino, table);
    }

    method CopyIds(before: seq<Word>, slots: seq<Word>, n: nat) returns (ids: seq<Word>)
      requires n <= |slots|
      ensures ids == before + slots[..n]
    {
      ids := before;
      for i := 0 to n
        invariant ids == before + slots[..i]
      {
        ids := ids + [slots[i]];
      }
    }

    // ----- growing block by block -----

    /** append_block.  The guard against too many blocks is never met: a disk of this size fills up
        first.  The image stays sound if and only if the disk has room. */
    method AppendBlock(inum: nat) returns (bid: Option<Word>)
      requires Valid() && Sound(bm.img)
      modifies bm`img, bm.blocks
      ensures Valid()
      ensures !Live(old(bm.img), inum) ==> bid == None && bm.img == old(bm.img)
      ensures Live(old(bm.img), inum) ==> bid.Some? && AppendedBlock(old(bm.img), bm.img, inum, bid.value)
    {
      var got := GetInode(inum);
      if got.None? {
        return None;
      }
      var ino := got.value;
      CountBound(bm.img, inum);
      var index := Count(ino.size);
      if index > MAXFILE {
        return None;
      }
      var id;
      if index < NDIRECT {
        id := AppendToDirect(inum, ino, index);
      } else {
        id := AppendToTable(inum, ino, index);
      }
      bid := Some(id);
    }

    method AppendToDirect(inum: nat, ino: Inode, index: nat) returns (bid: Word)
      requires Valid() && HasFile(bm.img, inum, ino, index) && index < NDIRECT
      modifies bm`img, bm.blocks
      ensures Valid() && AppendedBlock(old(bm.img), bm.img, inum, bid)
    {
      ghost var img := bm.img;
      bid := Alloc();
      ghost var img1 := bm.img;
      var ino' := ino.(blocks := ino.blocks[index := bid], size := ino.size + BLOCK_SIZE);
      PutInode(inum, ino');
      DirectAppended(img, img1, bm.img, inum, ino, ino', bid, index);
    }

    method AppendToTable(inum: nat, ino: Inode, index: nat) returns (bid: Word)
      requires Valid() && HasFile(bm.img, inum, ino, index) && Shape(ino)
      requires NDIRECT <= index < MAXFILE && ino.size + BLOCK_SIZE < WORD
      modifies bm`img, bm.blocks
      ensures Valid() && AppendedBlock(old(bm.img), bm.img, inum, bid)
    {
      ghost var img := bm.img;
      var blocks, table;
      bid, blocks, table := ExtendTable(inum, ino, index);
      ghost var img2 := bm.img;
      var ino' := ino.(blocks := blocks, size := ino.size + BLOCK_SIZE);
      StoreTable(inum, ino', table);
      ListingStored(img, img2, bm.img, inum, ino, ino', blocks, table, index, bid);
    }

    method StoreTable(inum: nat, ino: Inode, table: seq<Word>)
      requires Valid() && inum < INODE_NUM && |table| == NINDIRECT
      modifies bm`img, bm.blocks
      ensures Valid() && Ino(bm.img, inum) == ino
      ensures DataBlock(ino.blocks[NDIRECT]) ==>
                && TableStored(old(bm.img), bm.img, inum, ino, ino.blocks[NDIRECT], table)
                && Unused(bm.img) == Unused(old(bm.img))
    {
      ghost var mid := StoreSlot(inum, ino, table);
      if DataBlock(ino.blocks[NDIRECT]) { SameBitmap(old(bm.img), mid); }
    }

    /** The new id and, for the first indirect block, the table's own block; nothing written yet. */
    method ExtendTable(ghost inum: nat, ino: Inode, index: nat)
      returns (bid: Word, blocks: seq<Word>, table: seq<Word>)
      requires Valid() && HasFile(bm.img, inum, ino, index) && Shape(ino) && NDIRECT <= index < MAXFILE
      modifies bm`img, bm.blocks
      ensures Valid() && Listing(old(bm.img), bm.img, inum, ino, blocks, table, index, bid)
    {
      if index == NDIRECT {
        bid, blocks, table := FirstOfTable(inum, ino);
      } else {
        blocks := ino.blocks;
        bid, table := NextOfTable(inum, ino, index);
      }
    }

    method FirstOfTable(ghost inum: nat, ino: Inode) returns (bid: Word, blocks: seq<Word>, table: seq<Word>)
      requires Valid() && HasFile(bm.img, inum, ino, NDIRECT) && Shape(ino)
      modifies bm`img, bm.blocks
      ensures Valid() && Listing(old(bm.img), bm.img, inum, ino, blocks, table, NDIRECT, bid)
    {
      ghost var img := bm.img;
      bid := Alloc();
      ghost var img1 := bm.img;
      var tb := Alloc();
      blocks := ino.blocks[NDIRECT := tb];
      var buf: Block := *;
      buf := bm.ReadBlock(tb, buf);
      table := TableOf(buf)[0 := bid];
      FirstListing(img, img1, bm.img, inum, ino, bid, tb, table);
    }

    method NextOfTable(ghost inum: nat, ino: Inode, index: nat) returns (bid: Word, table: seq<Word>)
      requires Valid() && HasFile(bm.img, inum, ino, index) && Shape(ino) && NDIRECT < index < MAXFILE
      modifies bm`img, bm.blocks
      ensures Valid() && Listing(old(bm.img), bm.img, inum, ino, ino.blocks, table, index, bid)
    {
      ghost var img := bm.img;
      var before := ReadTable(inum, ino, index);
      bid := Alloc();
      table := before[index - NDIRECT := bid];
      NextListing(img, bm.img, inum, ino, bid, before, table, index);
    }

    /** complete: the source dereferences null when the inode does not exist. */
    method Complete(inum: nat, size: Word, now: Word)
      requires Valid() && Sound(bm.img) && Live(bm.img, inum)
      modifies bm`img, bm.blocks
      ensures Valid() && Completed(old(bm.img), bm.img, inum, size, now)
    {
      var got := GetInode(inum);
      PutInode(inum, got.value.(size := size, atime := now, mtime := now, ctime := now));
      CompleteSoundIff(old(bm.img), bm.img, inum, size, now);
    }

    // ----- removing -----

    method FreeInode(inum: nat)
      requires Valid()
      modifies bm`img, bm.blocks
      ensures Valid()
      ensures !Live(old(bm.img), inum) ==> bm.img == old(bm.img)
      ensures Live(old(bm.img), inum) ==> Stored(old(bm.img), bm.img, inum, NoInode())
    {
      var got := GetInode(inum);
      if got.Some? {
        PutInode(inum, NoInode());
      }
    }

    /** remove_file.  `buf` is the unset buffer for the table. */
    method RemoveFile(inum: nat, buf: Block)
      requires Valid() && Sound(bm.img)
      modifies bm`img, bm.blocks
      ensures Valid()
      ensures !Live(old(bm.img), inum) ==> bm.img == old(bm.img)
      ensures Live(old(bm.img), inum) ==> RemovedFile(old(bm.img), bm.img, inum, buf)
    {
      ghost var img := bm.img;
      var got := GetInode(inum);
      if got.None? {
        return;
      }
      var ino := got.value;
      ReleasedIs(img, inum, buf);
      FreeBlocks(ino, Taken(ino.size), buf);
      FreeInode(inum);
      RemoveHarmlessIff(img, bm.img, inum, buf);
    }

    method FreeBlocks(ino: Inode, t: nat, buf: Block)
      requires Valid() && t <= MAXFILE
      modifies bm`img, bm.blocks
      ensures Valid()
      ensures bm.img == FreeEach(old(bm.img), Released(ino.blocks, TableRead(old(bm.img), ino, buf), t))
    {
      ghost var img := bm.img;
      ReleasedParts(ino.blocks, TableRead(img, ino, buf), t);
      if t < NDIRECT {
        FreeRange(ino.blocks, 0, t);
      } else {
        var read := bm.ReadBlock(ino.blocks[NDIRECT], buf);
        var table := TableOf(read);
        FreeRange(table, 0, t - NDIRECT);
        FreeRange(ino.blocks, 0, NDIRECT + 1);
        FreeEachBoth(img, table[0..t - NDIRECT], ino.blocks[0..NDIRECT + 1]);
      }
    }
  }
}
