/** write_file from exactly NDIRECT blocks to more.  The code takes the file to have a table already
    and uses whatever its last slot names. */
module FileGrow {
  import opened DiskLayout
  import opened InodeCodec
  import opened FileView
  import opened FilePlan
  import opened FileWrite
  import opened FileReshape
  import opened FileDone

  /** The last slot names a block that is marked but belongs to nobody. */
  ghost predicate SlotSpare(img: Image, i: nat)
    requires |img| == BLOCK_NUM && i < INODE_NUM
  {
    var tb := Ino(img, i).blocks[NDIRECT];
    tb in Marks(img) && forall j: nat :: !Owns(img, j, tb)
  }

  /** The blocks the loops may write: those of the slots and those newly listed. */
  ghost function Touched(blocks: seq<Word>, table: seq<Word>, n: nat): set<nat>
    requires n <= |table|
  {
    Elems(blocks) + Elems(table[..n])
  }

  ghost predicate OnlyThese(img: Image, img': Image, these: set<nat>) {
    && |img| == BLOCK_NUM && |img'| == BLOCK_NUM
    && forall b: nat :: b < BLOCK_NUM && b !in these ==> img'[b] == img[b]
  }

  lemma OneMore(img: Image, img': Image, these: set<nat>, id: Word, b: Block)
    requires OnlyThese(img, img', these) && id as nat in these
    ensures OnlyThese(img, if id < BLOCK_NUM then img'[id := b] else img', these)
  {
  }

  /** After the whole write, whatever the slot named. */
  ghost predicate Grown(img: Image, img1: Image, img5: Image, i: nat, ino: Inode, table: seq<Word>, n: nat) {
    && |img| == BLOCK_NUM && |img5| == BLOCK_NUM && Live(img, i) && Live(img5, i)
    && Count(Ino(img, i).size) == NDIRECT && n == Count(ino.size) && NDIRECT < n <= MAXFILE && |table| == NINDIRECT
    && ino == Ino(img5, i) && ino.blocks == Ino(img, i).blocks
    && Took(img, img1, table[..n - NDIRECT])
    && (DataBlock(ino.blocks[NDIRECT]) ==> img5[ino.blocks[NDIRECT]] == TableBlock(table))
    && forall b: nat :: b < BLOCK_NUM && b != Home(i) && b !in Touched(ino.blocks, table, n - NDIRECT) ==>
                          img5[b] == img1[b]
  }

  ghost predicate OnDisk(direct: seq<Word>, table: seq<Word>, n: nat)
    requires n <= |direct| && n <= |table|
  {
    forall k :: 0 <= k < n ==> direct[k] < BLOCK_NUM && table[k] < BLOCK_NUM
  }

  /** File i has NDIRECT blocks and is to have n; the new ids are in the table. */
  ghost predicate Growing(img: Image, img1: Image, i: nat, ino: Inode, table: seq<Word>, n: nat, mem: seq<Byte>) {
    && Sound(img) && Live(img, i) && Count(Ino(img, i).size) == NDIRECT && n == Count(ino.size)
    && NDIRECT < n <= 2 * NDIRECT + 1 && ino.size <= n * BLOCK_SIZE <= |mem| && |table| == NINDIRECT
    && ino.kind == Ino(img, i).kind && ino.blocks == Ino(img, i).blocks
    && Took(img, img1, table[..n - NDIRECT])
  }

  lemma GrowingBy(img: Image, img1: Image, i: nat, ino: Inode, garbage: seq<Word>,
                  table: seq<Word>, got: seq<Word>, n: nat, mem: seq<Byte>)
    requires Sound(img) && Live(img, i) && Count(Ino(img, i).size) == NDIRECT && n == Count(ino.size)
    requires NDIRECT < n <= 2 * NDIRECT + 1 && n * BLOCK_SIZE <= |mem| && |garbage| == NINDIRECT
    requires ino.kind == Ino(img, i).kind && ino.blocks == Ino(img, i).blocks
    requires Filled(table, garbage, 0, n - NDIRECT, got) && Took(img, img1, got)
    ensures Growing(img, img1, i, ino, table, n, mem)
  {
    FilledPrefix(table, garbage, 0, n - NDIRECT, got);
    assert table[..n - NDIRECT] == got;
  }

  /** The two loops, from img1 to img3. */
  ghost predicate TwoLoops(img1: Image, img2: Image, img3: Image,
                           blocks: seq<Word>, table: seq<Word>, n: nat, mem: seq<Byte>, apart: bool) {
    && |table| == NINDIRECT && n <= NINDIRECT
    && WroteRun(img1, img2, blocks, NDIRECT, mem)
    && OnlyThese(img2, img3, Touched(blocks, table, n))
    && (apart ==> WroteTable(img2, img3, blocks, table, n, mem))
  }

  /** The loops, the write of the table and the store of the inode, from img1 to img5. */
  ghost predicate Loops(img1: Image, img2: Image, img3: Image, img4: Image, img5: Image,
                        i: nat, ino: Inode, table: seq<Word>, n: nat, mem: seq<Byte>, apart: bool) {
    && NDIRECT < n <= 2 * NDIRECT + 1 && |table| == NINDIRECT && n * BLOCK_SIZE <= |mem|
    && WroteRun(img1, img2, ino.blocks, NDIRECT, mem)
    && OnlyThese(img2, img3, Touched(ino.blocks, table, n - NDIRECT))
    && (apart ==> WroteTable(img2, img3, ino.blocks, table, n - NDIRECT, mem))
    && img4 == (if ino.blocks[NDIRECT] < BLOCK_NUM then img3[ino.blocks[NDIRECT] := TableBlock(table)] else img3)
    && Stored(img4, img5, i, ino)
  }

  lemma LoopsAre(img1: Image, img2: Image, img3: Image, img4: Image, img5: Image,
                 i: nat, ino: Inode, table: seq<Word>, n: nat, mem: seq<Byte>, apart: bool)
    requires NDIRECT < n <= 2 * NDIRECT + 1 && n * BLOCK_SIZE <= |mem|
    requires TwoLoops(img1, img2, img3, ino.blocks, table, n - NDIRECT, mem, apart)
    requires img4 == if ino.blocks[NDIRECT] < |img3| then img3[ino.blocks[NDIRECT] := TableBlock(table)] else img3
    requires Stored(img4, img5, i, ino)
    ensures Loops(img1, img2, img3, img4, img5, i, ino, table, n, mem, apart)
  {
  }

  lemma LoopsFrame(img1: Image, img2: Image, img3: Image, img4: Image, img5: Image,
                   i: nat, ino: Inode, table: seq<Word>, n: nat, mem: seq<Byte>, apart: bool, b: nat)
    requires Loops(img1, img2, img3, img4, img5, i, ino, table, n, mem, apart)
    requires b < BLOCK_NUM && b != Home(i) && b !in Touched(ino.blocks, table, n - NDIRECT)
    ensures img5[b] == img1[b]
  {
    TouchedIs(ino.blocks, table, n - NDIRECT);
  }

  lemma GrownBy(img: Image, img1: Image, img2: Image, img3: Image, img4: Image, img5: Image,
                i: nat, ino: Inode, table: seq<Word>, n: nat, mem: seq<Byte>, apart: bool)
    requires |img| == BLOCK_NUM && Live(img, i) && Count(Ino(img, i).size) == NDIRECT
    requires n == Count(ino.size) && ino.kind != 0 && ino.blocks == Ino(img, i).blocks
    requires Loops(img1, img2, img3, img4, img5, i, ino, table, n, mem, apart) && Took(img, img1, table[..n - NDIRECT])
    ensures Grown(img, img1, img5, i, ino, table, n)
  {
    forall b: nat | b < BLOCK_NUM && b != Home(i) && b !in Touched(ino.blocks, table, n - NDIRECT)
      ensures img5[b] == img1[b]
    {
      LoopsFrame(img1, img2, img3, img4, img5, i, ino, table, n, mem, apart, b);
    }
    LoopsTable(img1, img2, img3, img4, img5, i, ino, table, n, mem, apart);
  }

  lemma LoopsTable(img1: Image, img2: Image, img3: Image, img4: Image, img5: Image,
                   i: nat, ino: Inode, table: seq<Word>, n: nat, mem: seq<Byte>, apart: bool)
    requires Loops(img1, img2, img3, img4, img5, i, ino, table, n, mem, apart)
    ensures |img5| == BLOCK_NUM && i < INODE_NUM && Ino(img5, i) == ino
    ensures DataBlock(ino.blocks[NDIRECT]) ==> img5[ino.blocks[NDIRECT]] == TableBlock(table)
  {
  }

  lemma DirectIsOwned(img: Image, i: nat)
    requires Sound(img) && Live(img, i) && Count(Ino(img, i).size) == NDIRECT
    ensures Shape(Ino(img, i)) && OwnedSet(img, i) == Elems(Ino(img, i).blocks[..NDIRECT])
    ensures Distinct(Ino(img, i).blocks[..NDIRECT]) && OwnedSet(img, i) <= Marks(img)
  {
    OldBlocks(img, i);
    assert Owned(img, Ino(img, i)) == Ino(img, i).blocks[..NDIRECT];
  }

  lemma TouchedIs(blocks: seq<Word>, table: seq<Word>, n: nat)
    requires |blocks| == NDIRECT + 1 && n <= |table|
    ensures Touched(blocks, table, n) == Elems(blocks[..NDIRECT]) + {blocks[NDIRECT] as nat} + Elems(table[..n])
  {
    assert blocks == blocks[..NDIRECT] + [blocks[NDIRECT]];
    ElemsSnoc(blocks[..NDIRECT], blocks[NDIRECT]);
  }

  /** What is on the disk when the slot names a data block. */
  lemma GrownMarks(img: Image, img1: Image, img5: Image, i: nat, ino: Inode, table: seq<Word>, n: nat)
    requires Sound(img) && Grown(img, img1, img5, i, ino, table, n) && DataBlock(ino.blocks[NDIRECT])
    ensures Marks(img5) == Marks(img) + Elems(table[..n - NDIRECT])
    ensures Shape(ino) && Owned(img5, ino) == Listed(ino.blocks, table, n)
    ensures Ids(img5, ino) == ino.blocks[..NDIRECT] + table[..n - NDIRECT]
    ensures forall b :: b in Touched(ino.blocks, table, n - NDIRECT) ==> DataBlock(b)
    ensures forall b: nat ::
              b < BLOCK_NUM && b != 2 && b != Home(i) && b !in Touched(ino.blocks, table, n - NDIRECT) ==>
                img5[b] == img[b]
  {
    DirectIsOwned(img, i);
    TouchedIs(ino.blocks, table, n - NDIRECT);
    SameBitmap(img1, img5);
    IdsAre(img5, ino, table);
  }

  // ----- if the slot is spare, the image is sound -----

  lemma SpareDistinct(img: Image, img1: Image, i: nat, table: seq<Word>, n: nat)
    requires Sound(img) && Live(img, i) && Count(Ino(img, i).size) == NDIRECT && SlotSpare(img, i)
    requires NDIRECT < n <= MAXFILE && |table| == NINDIRECT && Took(img, img1, table[..n - NDIRECT])
    ensures Distinct(Listed(Ino(img, i).blocks, table, n))
  {
    var blocks, got := Ino(img, i).blocks, table[..n - NDIRECT];
    var tb := blocks[NDIRECT];
    DirectIsOwned(img, i);
    assert tb !in OwnedSet(img, i) by { assert !Owns(img, i, tb); }
    DistinctThree(blocks[..NDIRECT], got, tb);
  }

  lemma DistinctThree(a: seq<Word>, b: seq<Word>, c: Word)
    requires Distinct(a) && Distinct(b) && Elems(a) !! Elems(b) && c !in Elems(a) && c !in Elems(b)
    ensures Distinct(a + b + [c])
  {
    DistinctConcat(a, b);
    ElemsConcat(a, b);
    assert Elems([c]) == {c as nat};
    DistinctConcat(a + b, [c]);
  }

  lemma InPlace(img5: Image, i: nat, owned: seq<Word>, these: set<nat>)
    requires |img5| == BLOCK_NUM && Live(img5, i) && Shape(Ino(img5, i)) && Owned(img5, Ino(img5, i)) == owned
    requires Distinct(owned) && Elems(owned) == these && these <= Marks(img5)
    ensures FileOk(img5, Ino(img5, i)) && OwnedSet(img5, i) == these && forall b: nat :: Owns(img5, i, b) ==> b in these
  {
    forall b | b in owned ensures b in Marks(img5) { assert b in Elems(owned); }
  }

  /** The end of the write in terms of sets: the file owns what it did, the new blocks and tb. */
  ghost predicate Placed(img: Image, img5: Image, i: nat, owned: seq<Word>, got: set<nat>, tb: Word, these: set<nat>) {
    && Sound(img) && |img5| == BLOCK_NUM && Live(img5, i) && Shape(Ino(img5, i)) && Owned(img5, Ino(img5, i)) == owned
    && Elems(owned) == these == OwnedSet(img, i) + {tb as nat} + got
    && got <= Unused(img) && Marks(img5) == Marks(img) + got
    && (forall b :: b in these ==> DataBlock(b))
    && forall b: nat :: b < BLOCK_NUM && b != 2 && b != Home(i) && b !in these ==> img5[b] == img[b]
  }

  lemma GrownPlaced(img: Image, img1: Image, img5: Image, i: nat, ino: Inode, table: seq<Word>, n: nat)
    requires Sound(img) && Grown(img, img1, img5, i, ino, table, n) && DataBlock(ino.blocks[NDIRECT])
    ensures Placed(img, img5, i, Listed(ino.blocks, table, n), Elems(table[..n - NDIRECT]), ino.blocks[NDIRECT],
                   Touched(ino.blocks, table, n - NDIRECT))
  {
    GrownMarks(img, img1, img5, i, ino, table, n);
    DirectIsOwned(img, i);
    TouchedIs(ino.blocks, table, n - NDIRECT);
    ListedElems(ino.blocks, table, n);
  }

  lemma PlacedSound(img: Image, img5: Image, i: nat, owned: seq<Word>, got: set<nat>, tb: Word, these: set<nat>)
    requires Placed(img, img5, i, owned, got, tb, these) && Distinct(owned)
    requires tb in Marks(img) && forall j: nat :: !Owns(img, j, tb)
    ensures Sound(img5) && Untouched(img, img5, i)
    ensures Marks(img5) == Marks(img) - OwnedSet(img, i) + OwnedSet(img5, i)
  {
    OwnedSetMarked(img, i);
    SpareEffect(img, img5, i, tb, got, these);
    InPlace(img5, i, owned, these);
    Commit(img, img5, i);
  }

  lemma SpareSound(img: Image, img1: Image, img5: Image, i: nat, ino: Inode, table: seq<Word>, n: nat)
    requires Sound(img) && Grown(img, img1, img5, i, ino, table, n) && SlotSpare(img, i)
    ensures Sound(img5) && Untouched(img, img5, i)
    ensures Marks(img5) == Marks(img) - OwnedSet(img, i) + OwnedSet(img5, i)
  {
    GrownPlaced(img, img1, img5, i, ino, table, n);
    SpareDistinct(img, img1, i, table, n);
    PlacedSound(img, img5, i, Listed(ino.blocks, table, n), Elems(table[..n - NDIRECT]), ino.blocks[NDIRECT],
                Touched(ino.blocks, table, n - NDIRECT));
  }

  /** Nothing that is touched belongs to another file. */
  lemma SpareEffect(img: Image, img5: Image, i: nat, tb: Word, got: set<nat>, these: set<nat>)
    requires Sound(img) && |img5| == BLOCK_NUM && i < INODE_NUM && (forall j: nat :: !Owns(img, j, tb))
    requires these == OwnedSet(img, i) + {tb as nat} + got && got <= Unused(img)
    requires Marks(img5) == Marks(img) + got && forall b :: b in these ==> DataBlock(b)
    requires forall b: nat :: b < BLOCK_NUM && b != 2 && b != Home(i) && b !in these ==> img5[b] == img[b]
    ensures Untouched(img, img5, i) && forall j: nat, b: nat :: j != i && b in these ==> !Owns(img, j, b)
  {
    forall j: nat, b: nat | j != i && b in these ensures !Owns(img, j, b) {
      if b != tb { NotTheirs(img, i, b); }
    }
    assert Effect(img, img5, i, {}, got, these);
    EffectUntouched(img, img5, i, {}, got, these);
  }

  // ----- if the image is sound, the slot was spare -----

  /** A file that owned the slot's block still does. */
  lemma KeepsSlot(img: Image, img5: Image, i: nat, j: nat, tb: Word, got: set<nat>, these: set<nat>)
    requires Sound(img) && |img5| == BLOCK_NUM && i < INODE_NUM && j != i && Owns(img, j, tb)
    requires these == OwnedSet(img, i) + {tb as nat} + got && got <= Unused(img)
    requires forall b :: b in these ==> DataBlock(b)
    requires forall b: nat :: b < BLOCK_NUM && b != 2 && b != Home(i) && b !in these ==> img5[b] == img[b]
    ensures Owns(img5, j, tb)
  {
    var ino := Ino(img, j);
    OwnedOnDisk(img, ino);
    assert Ino(img5, j) == ino;
    if Count(ino.size) > NDIRECT {
      var t := ino.blocks[NDIRECT];
      assert Owned(img, ino)[Count(ino.size)] == t && Owned(img5, ino)[Count(ino.size)] == t;
      if t != tb {
        assert Owns(img, j, t);
        assert t !in these by { if t in these { NotTheirs(img, i, t); } }
        assert Owned(img5, ino) == Owned(img, ino);
      }
    }
  }

  lemma PlacedSpare(img: Image, img5: Image, i: nat, owned: seq<Word>, got: set<nat>, tb: Word, these: set<nat>)
    requires Placed(img, img5, i, owned, got, tb, these) && Sound(img5)
    requires tb !in OwnedSet(img, i) && tb !in got
    ensures tb in Marks(img) && forall j: nat :: !Owns(img, j, tb)
  {
    assert tb in owned by { assert tb in Elems(owned); }
    assert Owns(img5, i, tb);
    forall j: nat ensures !Owns(img, j, tb) {
      if j != i && Owns(img, j, tb) {
        KeepsSlot(img, img5, i, j, tb, got, these);
      }
    }
  }

  lemma SoundSpare(img: Image, img1: Image, img5: Image, i: nat, ino: Inode, table: seq<Word>, n: nat)
    requires Sound(img) && Grown(img, img1, img5, i, ino, table, n) && Sound(img5)
    ensures SlotSpare(img, i)
  {
    var owned := Listed(ino.blocks, table, n);
    SoundIsData(img5, i);
    GrownPlaced(img, img1, img5, i, ino, table, n);
    assert Distinct(owned);
    TableBlockApart(ino.blocks, table, n);
    DirectIsOwned(img, i);
    PlacedSpare(img, img5, i, owned, Elems(table[..n - NDIRECT]), ino.blocks[NDIRECT],
                Touched(ino.blocks, table, n - NDIRECT));
  }

  lemma TableBlockApart(blocks: seq<Word>, table: seq<Word>, n: nat)
    requires |blocks| == NDIRECT + 1 && |table| == NINDIRECT && NDIRECT < n <= MAXFILE
    requires Distinct(Listed(blocks, table, n))
    ensures blocks[NDIRECT] !in Elems(blocks[..NDIRECT]) && blocks[NDIRECT] !in Elems(table[..n - NDIRECT])
  {
    TableBlockDistinct(blocks, table, n);
  }

  /** The write leaves a sound image if and only if the slot named a marked block of nobody's. */
  lemma GrownSoundIff(img: Image, img1: Image, img5: Image, i: nat, ino: Inode, table: seq<Word>, n: nat)
    requires Sound(img) && Grown(img, img1, img5, i, ino, table, n)
    ensures Sound(img5) <==> SlotSpare(img, i)
  {
    if SlotSpare(img, i) {
      SpareSound(img, img1, img5, i, ino, table, n);
    }
    if Sound(img5) {
      SoundSpare(img, img1, img5, i, ino, table, n);
    }
  }

  lemma AllOnDisk(blocks: seq<Word>, table: seq<Word>, n: nat)
    requires |blocks| == NDIRECT + 1 && |table| == NINDIRECT && NDIRECT < n <= 2 * NDIRECT + 1
    requires forall b :: b in Touched(blocks, table, n - NDIRECT) ==> DataBlock(b)
    ensures AllData(Listed(blocks, table, n)) && OnDisk(blocks, table, n - NDIRECT) && blocks[NDIRECT] < BLOCK_NUM
  {
    var owned := Listed(blocks, table, n);
    ListedElems(blocks, table, n);
    forall k | 0 <= k < |owned| ensures DataBlock(owned[k]) { assert owned[k] in Elems(owned); }
    assert owned[n] == blocks[NDIRECT];
    forall k | 0 <= k < n - NDIRECT ensures blocks[k] < BLOCK_NUM && table[k] < BLOCK_NUM {
      assert table[k] == owned[NDIRECT + k] && blocks[k] == owned[if k < NDIRECT then k else n];
    }
  }

  lemma SpareData(img: Image, i: nat, got: set<nat>)
    requires Sound(img) && Live(img, i) && Count(Ino(img, i).size) == NDIRECT && SlotSpare(img, i) && got <= Unused(img)
    ensures forall b :: b in Elems(Ino(img, i).blocks[..NDIRECT]) + {Ino(img, i).blocks[NDIRECT] as nat} + got ==>
                          DataBlock(b)
  {
    DirectIsOwned(img, i);
    AreData(img, OwnedSet(img, i), Ino(img, i).blocks[NDIRECT], got);
  }

  lemma AreData(img: Image, owned: set<nat>, tb: nat, got: set<nat>)
    requires |img| == BLOCK_NUM && owned <= Marks(img) && tb in Marks(img) && got <= Unused(img)
    ensures forall b :: b in owned + {tb} + got ==> DataBlock(b)
  {
  }

  lemma SpareReady(img: Image, img1: Image, i: nat, ino: Inode, table: seq<Word>, n: nat, mem: seq<Byte>)
    requires Growing(img, img1, i, ino, table, n, mem)
    ensures SlotSpare(img, i) ==> Distinct(Listed(ino.blocks, table, n)) && OnDisk(ino.blocks, table, n - NDIRECT)
  {
    if SlotSpare(img, i) {
      SpareDistinct(img, img1, i, table, n);
      SpareData(img, i, Elems(table[..n - NDIRECT]));
      TouchedIs(ino.blocks, table, n - NDIRECT);
      AllOnDisk(ino.blocks, table, n);
    }
  }

  lemma DirectData(img: Image, i: nat)
    requires Sound(img) && Live(img, i) && Count(Ino(img, i).size) == NDIRECT
    ensures Distinct(Ino(img, i).blocks[..NDIRECT]) && AllData(Ino(img, i).blocks[..NDIRECT])
  {
    DirectIsOwned(img, i);
    MarkedAreData(img, Ino(img, i).blocks[..NDIRECT]);
  }

  lemma MarkedAreData(img: Image, ids: seq<Word>)
    requires |img| == BLOCK_NUM && Elems(ids) <= Marks(img)
    ensures AllData(ids)
  {
    forall k | 0 <= k < |ids| ensures DataBlock(ids[k]) { assert ids[k] in Elems(ids); }
  }

  /** And then it holds what was written, as after any other growth. */
  lemma SpareContents(img: Image, img1: Image, img2: Image, img3: Image, img4: Image, img5: Image,
                      i: nat, ino: Inode, table: seq<Word>, n: nat, mem: seq<Byte>, apart: bool)
    requires Sound(img) && Grown(img, img1, img5, i, ino, table, n) && SlotSpare(img, i) && apart && FileOk(img5, ino)
    requires Loops(img1, img2, img3, img4, img5, i, ino, table, n, mem, apart)
    ensures Contents(img5, ino) == ZeroPrefix(mem, Lost(n))[..ino.size]
  {
    SpareDistinct(img, img1, i, table, n);
    GrownMarks(img, img1, img5, i, ino, table, n);
    AllOnDisk(ino.blocks, table, n);
    assert Finished(img1, img2, img3, img4, img5, i, ino, table, n, mem);
    IndirectContents(img1, img2, img3, img4, img5, i, ino, table, n, mem);
  }

  lemma SpareWritten(img: Image, img1: Image, img2: Image, img3: Image, img4: Image, img5: Image,
                     i: nat, ino: Inode, table: seq<Word>, n: nat, mem: seq<Byte>, apart: bool)
    requires Sound(img) && Grown(img, img1, img5, i, ino, table, n) && SlotSpare(img, i) && apart
    requires Loops(img1, img2, img3, img4, img5, i, ino, table, n, mem, apart)
    ensures Written(img, img5, i, ZeroPrefix(mem, Lost(n))[..ino.size])
  {
    SpareSound(img, img1, img5, i, ino, table, n);
    SpareContents(img, img1, img2, img3, img4, img5, i, ino, table, n, mem, apart);
  }

  /** Growth from NDIRECT blocks, from beginning to end. */
  lemma GrownOutcome(img: Image, img1: Image, img2: Image, img3: Image, img4: Image, img5: Image,
                     i: nat, ino: Inode, table: seq<Word>, n: nat, mem: seq<Byte>, apart: bool)
    requires Growing(img, img1, i, ino, table, n, mem) && apart == SlotSpare(img, i)
    requires Loops(img1, img2, img3, img4, img5, i, ino, table, n, mem, apart)
    ensures |img5| == BLOCK_NUM && i < INODE_NUM && Ino(img5, i) == ino
    ensures Sound(img5) <==> SlotSpare(img, i)
    ensures SlotSpare(img, i) ==> Written(img, img5, i, ZeroPrefix(mem, Lost(n))[..ino.size])
  {
    LoopsTable(img1, img2, img3, img4, img5, i, ino, table, n, mem, apart);
    GrownBy(img, img1, img2, img3, img4, img5, i, ino, table, n, mem, apart);
    GrownSoundIff(img, img1, img5, i, ino, table, n);
    if SlotSpare(img, i) {
      SpareWritten(img, img1, img2, img3, img4, img5, i, ino, table, n, mem, apart);
    }
  }
}
