/** Runs from an empty disk on which the code departs from what it is for: data that does not read
    back, and operations after which two files share a block or a file has lost one. */
module DiskWitness {
  import opened Options
  import opened DiskLayout
  import opened BlockLayer
  import opened InodeCodec
  import opened FileView
  import opened FilePlan
  import opened FileDone
  import opened FileAppend
  import opened FileRemove
  import opened FileGrow
  import opened InodeLayer
  import opened StoreRefinement

  const DATA_BLOCKS := BLOCK_NUM - FIRST_DATA

  /** Inode slots that the memory held zeros in. */
  function Zeros(): seq<Word> {
    seq(NDIRECT + 1, _ => 0)
  }

  function Ones(n: nat): seq<Byte> {
    seq(n * BLOCK_SIZE, _ => 1)
  }

  lemma UnusedIs(img: Image, marks: set<nat>)
    requires |img| == BLOCK_NUM && Marks(img) == marks
    ensures forall b: nat :: DataBlock(b) ==> (b in Unused(img) <==> b !in marks)
    ensures |Unused(img)| == DATA_BLOCKS - |marks|
  {
    forall b: nat | DataBlock(b) ensures b in Unused(img) <==> b !in marks {
      assert b in Unused(img) <==> b !in Marks(img);
    }
    var area := Interval(FIRST_DATA, BLOCK_NUM);
    assert marks <= area && Unused(img) == area - marks;
  }

  /** A disk with one empty file, number f, beside the root directory. */
  ghost predicate OneFile(img: Image, f: nat) {
    && Sound(img) && Marks(img) == {} && Live(img, f) && Ino(img, f).size == 0 && Ino(img, f).blocks == Zeros()
    && forall i: nat :: Live(img, i) <==> i == 1 || i == f
  }

  method NewDisk(now: Word) returns (im: InodeManager, f: nat)
    ensures im.Valid() && fresh(im) && fresh(im.bm) && fresh(im.bm.blocks)
    ensures f == 2 && OneFile(im.bm.img, f) && |Unused(im.bm.img)| == DATA_BLOCKS
  {
    im := new InodeManager(now, Zeros());
    ghost var img := im.bm.img;
    f := im.AllocInode(T_FILE, now, Zeros());
    assert f == 2 by { assert !Live(img, 2); }
    SecondInode(img, im.bm.img, f, Ino(im.bm.img, f));
  }

  lemma StoredLive(img: Image, img': Image, f: nat, ino: Inode, i: nat)
    requires Stored(img, img', f, ino) && i != f
    ensures Live(img', i) <==> Live(img, i)
  {
    if i < INODE_NUM { assert img'[Home(i)] == img[Home(i)]; }
  }

  lemma SecondInode(img: Image, img': Image, f: nat, ino: Inode)
    requires Formatted(img) && f == 2 && Sound(img') && Marks(img') == Marks(img)
    requires Stored(img, img', f, ino) && ino.kind != 0 && ino.size == 0 && ino.blocks == Zeros()
    ensures OneFile(img', f) && |Unused(img')| == DATA_BLOCKS
  {
    forall i: nat ensures Live(img', i) <==> i == 1 || i == f {
      if i != f { StoredLive(img, img', f, ino, i); }
    }
    UnusedIs(img', {});
  }

  /** 101 blocks of ones are written to a new file: they do not read back. */
  method WriteLosesData(now: Word) returns (mem: seq<Byte>, size: Word, bytes: Option<seq<Byte>>)
    ensures mem == Ones(NDIRECT + 1) && size == |mem| && bytes.Some? && |bytes.value| == size
    ensures bytes.value != mem
  {
    var im, f := NewDisk(now);
    mem, size := Ones(NDIRECT + 1), (NDIRECT + 1) * BLOCK_SIZE;
    CountOf(NDIRECT + 1);
    EmptyTakes(im.bm.img, f, NDIRECT + 1);
    bytes := WriteThenRead(im, f, mem, size, now, now);
    assert mem[0] != 0;
    assert mem[..size] == mem;
  }

  /** A new file is written with 100 blocks, then with 101: there is room, but the image is not
      sound afterwards. */
  method GrowthHurts(now: Word) returns (im: InodeManager, f: nat, ghost before: Image)
    ensures im.Valid() && Sound(before) && Live(before, f) && Room(before, f, NDIRECT + 1)
    ensures WroteFile(before, im.bm.img, f, Ones(NDIRECT + 1), (NDIRECT + 1) * BLOCK_SIZE)
    ensures !Sound(im.bm.img)
  {
    im, f := NewDisk(now);
    ghost var empty := im.bm.img;
    CountOf(NDIRECT);
    CountOf(NDIRECT + 1);
    EmptyTakes(empty, f, NDIRECT);
    im.WriteFile(f, Ones(NDIRECT), NDIRECT * BLOCK_SIZE, now);
    before := im.bm.img;
    Resizes(empty, before, f, Ones(NDIRECT), 0, NDIRECT, NDIRECT * BLOCK_SIZE);
    FullNow(empty, before, f);
    im.WriteFile(f, Ones(NDIRECT + 1), (NDIRECT + 1) * BLOCK_SIZE, now);
  }

  lemma CountOf(n: nat)
    ensures Count(n * BLOCK_SIZE) == n
  {
  }

  /** The part of write_file's promise that the runs below need. */
  ghost predicate Resized(img: Image, img': Image, i: nat, origin: nat, need: nat) {
    && Sound(img') && |img| == BLOCK_NUM && Live(img, i) && Live(img', i)
    && Ino(img', i).size == need * BLOCK_SIZE && Count(Ino(img', i).size) == need
    && SlotsKept(Ino(img, i).blocks, Ino(img', i).blocks, origin, need)
    && Marks(img') == Marks(img) - OwnedSet(img, i) + OwnedSet(img', i) && Untouched(img, img', i)
  }

  lemma Resizes(img: Image, img': Image, i: nat, mem: seq<Byte>, origin: nat, need: nat, size: Word)
    requires size == need * BLOCK_SIZE && WroteFile(img, img', i, mem, size) && Sound(img')
    requires origin == Count(Ino(img, i).size)
    ensures Resized(img, img', i, origin, need)
  {
    CountOf(need);
  }

  lemma FullNow(img: Image, img': Image, f: nat)
    requires OneFile(img, f) && Resized(img, img', f, 0, NDIRECT)
    ensures Room(img', f, NDIRECT + 1) && !Growable(img', f, NDIRECT + 1)
  {
    NothingOwned(img, f);
    assert Marks(img') == OwnedSet(img', f);
    FullRoom(img', f);
    assert Ino(img', f).blocks[NDIRECT] == Ino(img, f).blocks[NDIRECT] == 0;
  }

  lemma FullOwns(img: Image, f: nat)
    requires Sound(img) && Live(img, f) && Count(Ino(img, f).size) == NDIRECT
    ensures |OwnedSet(img, f)| == NDIRECT
  {
    DirectIsOwned(img, f);
    ElemsCount(Ino(img, f).blocks[..NDIRECT]);
  }

  lemma FullRoom(img: Image, f: nat)
    requires Sound(img) && Live(img, f) && Count(Ino(img, f).size) == NDIRECT && Marks(img) == OwnedSet(img, f)
    ensures Room(img, f, NDIRECT + 1)
  {
    FullOwns(img, f);
    UnusedIs(img, OwnedSet(img, f));
  }

  lemma NothingOwned(img: Image, f: nat)
    requires |img| == BLOCK_NUM && Live(img, f) && Ino(img, f).size == 0
    ensures OwnedSet(img, f) == {}
  {
    assert Owned(img, Ino(img, f)) == [];
  }

  lemma EmptyTakes(img: Image, f: nat, n: nat)
    requires |img| == BLOCK_NUM && Live(img, f) && Ino(img, f).size == 0 && n < |Unused(img)|
    ensures Room(img, f, n) && Growable(img, f, n)
  {
  }

  /** File a owns exactly blocks FIRST_DATA to FIRST_DATA + n - 1, in the slots before `top`. */
  ghost predicate Row(img: Image, a: nat, n: nat, top: nat) {
    && Sound(img) && Live(img, a) && n <= top <= NDIRECT && Ino(img, a).size == n * BLOCK_SIZE
    && forall k :: 0 <= k < top ==> Ino(img, a).blocks[k] == FIRST_DATA + k
  }

  lemma RowOwns(img: Image, a: nat, n: nat, top: nat)
    requires Row(img, a, n, top)
    ensures Count(n * BLOCK_SIZE) == n && Shape(Ino(img, a))
    ensures OwnedSet(img, a) == Interval(FIRST_DATA, FIRST_DATA + n)
  {
    CountOf(n);
    var slots := Ino(img, a).blocks[..n];
    assert Owned(img, Ino(img, a)) == slots;
    RowElems(slots);
  }

  lemma RowElems(s: seq<Word>)
    requires forall k :: 0 <= k < |s| ==> s[k] == FIRST_DATA + k
    ensures Elems(s) == Interval(FIRST_DATA, FIRST_DATA + |s|)
  {
    forall b: nat | FIRST_DATA <= b < FIRST_DATA + |s| ensures b in Elems(s) {
      assert s[b - FIRST_DATA] == b;
    }
  }

  /** Only a's blocks are marked, so the next append takes the next one. */
  lemma RowGrows(img: Image, img': Image, a: nat, n: nat, bid: Word)
    requires Row(img, a, n, n) && n < NDIRECT && Marks(img) == Interval(FIRST_DATA, FIRST_DATA + n)
    requires AppendedBlock(img, img', a, bid) && Sound(img')
    ensures bid == FIRST_DATA + n && Row(img', a, n + 1, n + 1)
    ensures Marks(img') == Interval(FIRST_DATA, FIRST_DATA + n + 1)
  {
    RowOwns(img, a, n, n);
    NextIs(img, n, bid);
    RowOwns(img', a, n + 1, n + 1);
  }

  /** Cut to one block, the file keeps the old id in its second slot. */
  lemma RowShrinks(img: Image, img': Image, a: nat)
    requires Row(img, a, 2, 2) && Marks(img) == Interval(FIRST_DATA, FIRST_DATA + 2) && Resized(img, img', a, 2, 1)
    ensures Row(img', a, 1, 2) && Marks(img') == Interval(FIRST_DATA, FIRST_DATA + 1)
  {
    ShrunkRow(img, img', a);
    RowOwns(img, a, 2, 2);
    RowOwns(img', a, 1, 2);
    CutInterval(Marks(img), OwnedSet(img, a), OwnedSet(img', a));
  }

  lemma ShrunkRow(img: Image, img': Image, a: nat)
    requires Row(img, a, 2, 2) && Resized(img, img', a, 2, 1)
    ensures Row(img', a, 1, 2)
  {
  }

  lemma CutInterval(all: set<nat>, before: set<nat>, after: set<nat>)
    requires all == before
    ensures all - before + after == after
  {
  }

  /** Another file takes the block whose id the first still has in its second slot. */
  lemma SecondSlotTaken(img: Image, img': Image, a: nat, b: nat, bid: Word, buf: Block)
    requires Row(img, a, 1, 2) && Marks(img) == Interval(FIRST_DATA, FIRST_DATA + 1)
    requires a != b && Live(img, b) && Ino(img, b).size == 0 && AppendedBlock(img, img', b, bid) && Sound(img')
    ensures Live(img', a) && Count(Ino(img', a).size) == 1
    ensures InBitmap(Leftovers(img', a, buf)) && !Spared(img', a, Leftovers(img', a, buf))
  {
    NextIs(img, 1, bid);
    OtherKept(img, img', b, a);
    LeftoverIs(img', a, buf);
    FirstIsOwned(img, img', b, bid);
    assert bid in Leftovers(img', a, buf);
  }

  lemma NextIs(img: Image, n: nat, bid: Word)
    requires |img| == BLOCK_NUM && n < NDIRECT && Marks(img) == Interval(FIRST_DATA, FIRST_DATA + n)
    requires bid in Unused(img) && Least(img, bid)
    ensures bid == FIRST_DATA + n
  {
    UnusedIs(img, Interval(FIRST_DATA, FIRST_DATA + n));
    assert FIRST_DATA + n in Unused(img);
  }

  lemma FirstIsOwned(img: Image, img': Image, b: nat, bid: Word)
    requires Appended(img, img', b, bid) && Ino(img, b).size == 0
    ensures Owns(img', b, bid)
  {
    assert Ids(img', Ino(img', b)) == [bid];
    assert Owned(img', Ino(img', b))[0] == bid;
  }

  lemma LeftoverIs(img: Image, a: nat, buf: Block)
    requires Row(img, a, 1, 2)
    ensures Count(Ino(img, a).size) == 1 && Leftovers(img, a, buf) == {FIRST_DATA + 1}
  {
  }

  /** File a grows to two blocks and is cut to one, file b takes the block given up, a is removed:
      b's only block has lost its mark. */
  method RemovalHurts(now: Word, buf: Block) returns (im: InodeManager, b: nat, ghost before: Image)
    ensures im.Valid() && Sound(before) && Live(before, 2) && RemovedFile(before, im.bm.img, 2, buf)
    ensures b != 2 && Live(im.bm.img, b) && !Sound(im.bm.img)
  {
    im := CutToOne(now);
    b := TakeOne(im, 2, now, buf);
    before := im.bm.img;
    im.RemoveFile(2, buf);
    StillThere(before, im.bm.img, 2, b, buf);
  }

  /** File 2 has had blocks FIRST_DATA and the next; now it has the first. */
  method CutToOne(now: Word) returns (im: InodeManager)
    ensures im.Valid() && fresh(im) && fresh(im.bm) && fresh(im.bm.blocks)
    ensures Row(im.bm.img, 2, 1, 2) && Marks(im.bm.img) == Interval(FIRST_DATA, FIRST_DATA + 1) && !Live(im.bm.img, 3)
  {
    var a;
    im, a := NewDisk(now);
    assert Marks(im.bm.img) == Interval(FIRST_DATA, FIRST_DATA);
    GrowTwice(im, a);
    ghost var two := im.bm.img;
    CountOf(1);
    CountOf(2);
    im.WriteFile(a, Ones(1), 1 * BLOCK_SIZE, now);
    RowOwns(two, a, 2, 2);
    Resizes(two, im.bm.img, a, Ones(1), 2, 1, 1 * BLOCK_SIZE);
    RowShrinks(two, im.bm.img, a);
    SameLive(two, im.bm.img, a);
  }

  lemma StillThere(img: Image, img': Image, a: nat, b: nat, buf: Block)
    requires RemovedFile(img, img', a, buf) && b < INODE_NUM && a != b && InBitmap(Leftovers(img, a, buf))
    ensures Live(img', b) <==> Live(img, b)
  {
    var ino := Ino(img, a);
    var gone := Released(ino.blocks, TableRead(img, ino, buf), Taken(ino.size));
    ReleasedIs(img, a, buf);
    ReleasedInBitmap(img, a, gone, Leaked(img, ino), Leftovers(img, a, buf));
    FreeEachFrees(img, gone);
  }

  method GrowTwice(im: InodeManager, a: nat)
    requires im.Valid() && Row(im.bm.img, a, 0, 0) && Marks(im.bm.img) == Interval(FIRST_DATA, FIRST_DATA)
    modifies im.bm`img, im.bm.blocks
    ensures im.Valid() && Row(im.bm.img, a, 2, 2) && Marks(im.bm.img) == Interval(FIRST_DATA, FIRST_DATA + 2)
    ensures forall i: nat :: Live(im.bm.img, i) <==> Live(old(im.bm.img), i)
  {
    GrowOnce(im, a, 0);
    GrowOnce(im, a, 1);
  }

  method GrowOnce(im: InodeManager, a: nat, ghost n: nat)
    requires im.Valid() && n < NDIRECT && Row(im.bm.img, a, n, n)
    requires Marks(im.bm.img) == Interval(FIRST_DATA, FIRST_DATA + n)
    modifies im.bm`img, im.bm.blocks
    ensures im.Valid() && Row(im.bm.img, a, n + 1, n + 1)
    ensures Marks(im.bm.img) == Interval(FIRST_DATA, FIRST_DATA + n + 1)
    ensures forall i: nat :: Live(im.bm.img, i) <==> Live(old(im.bm.img), i)
  {
    ghost var img := im.bm.img;
    UnusedIs(img, Interval(FIRST_DATA, FIRST_DATA + n));
    CountOf(n);
    var bid := im.AppendBlock(a);
    RowGrows(img, im.bm.img, a, n, bid.value);
    SameLive(img, im.bm.img, a);
  }

  method TakeOne(im: InodeManager, a: nat, now: Word, ghost buf: Block) returns (b: nat)
    requires im.Valid() && a == 2 && Row(im.bm.img, a, 1, 2) && Marks(im.bm.img) == Interval(FIRST_DATA, FIRST_DATA + 1)
    requires !Live(im.bm.img, 3)
    modifies im.bm`img, im.bm.blocks
    ensures im.Valid() && Sound(im.bm.img) && Live(im.bm.img, a) && Live(im.bm.img, b) && a != b
    ensures Count(Ino(im.bm.img, a).size) == 1
    ensures InBitmap(Leftovers(im.bm.img, a, buf)) && !Spared(im.bm.img, a, Leftovers(im.bm.img, a, buf))
  {
    b := im.AllocInode(T_FILE, now, Zeros());
    ghost var img := im.bm.img;
    UnusedIs(img, Interval(FIRST_DATA, FIRST_DATA + 1));
    var bid := im.AppendBlock(b);
    SecondSlotTaken(img, im.bm.img, a, b, bid.value, buf);
  }

  /** A new file, completed with the size of a block it never got: the unset slot becomes its block. */
  method CompleteHurts(now: Word) returns (im: InodeManager, f: nat, ghost before: Image)
    ensures im.Valid() && Sound(before) && Live(before, f) && Completed(before, im.bm.img, f, BLOCK_SIZE, now)
    ensures !Sound(im.bm.img)
  {
    im, f := NewDisk(now);
    before := im.bm.img;
    im.Complete(f, BLOCK_SIZE, now);
    UncoversZero(before, f);
  }

  lemma UncoversZero(img: Image, f: nat)
    requires OneFile(img, f)
    ensures !Extendable(img, f, BLOCK_SIZE)
  {
    var ino := Ino(img, f);
    assert Count(BLOCK_SIZE) == 1 && Count(ino.size) == 0;
    assert Uncovered(img, ino, BLOCK_SIZE)[0] == 0;
    assert 0 in Elems(Uncovered(img, ino, BLOCK_SIZE));
  }

  // ----- a leftover id whose bit is in another file's data -----

  function High(): seq<Byte> {
    seq(BLOCK_SIZE, _ => 255)
  }

  /** The id whose bit free_block takes to be the first of data block FIRST_DATA. */
  const ELSEWHERE: Word := (FIRST_DATA - 2) * BPB

  function Slots(): seq<Word> {
    seq(NDIRECT + 1, _ => ELSEWHERE)
  }

  /** File f owns block FIRST_DATA, and the first bit of its data is set. */
  ghost predicate HighFile(img: Image, f: nat) {
    && Row(img, f, 1, 1) && Owns(img, f, FIRST_DATA)
    && BBlock(ELSEWHERE) == FIRST_DATA && Marked(img, ELSEWHERE)
  }

  lemma FirstBit(img: Image)
    requires |img| == BLOCK_NUM && img[FIRST_DATA][0] == 255
    ensures BBlock(ELSEWHERE) == FIRST_DATA && Marked(img, ELSEWHERE)
  {
    assert ELSEWHERE % BPB == 0;
    assert Bit(255, 0);
  }

  lemma HighNow(img: Image, f: nat)
    requires Row(img, f, 1, 1) && Contents(img, Ino(img, f)) == High()
    ensures HighFile(img, f)
  {
    RowOwns(img, f, 1, 1);
    var ino := Ino(img, f);
    assert Ids(img, ino) == [FIRST_DATA];
    OwnedOnDisk(img, ino);
    assert Owned(img, ino)[0] == FIRST_DATA;
    assert Contents(img, ino)[0] == img[FIRST_DATA][0];
    FirstBit(img);
  }

  method WriteHigh(now: Word) returns (im: InodeManager)
    ensures im.Valid() && fresh(im) && fresh(im.bm) && fresh(im.bm.blocks)
    ensures HighFile(im.bm.img, 2) && !Live(im.bm.img, 3) && Live(im.bm.img, 1)
  {
    var f;
    im, f := NewDisk(now);
    assert Marks(im.bm.img) == Interval(FIRST_DATA, FIRST_DATA);
    GrowOnce(im, f, 0);
    ghost var one := im.bm.img;
    CountOf(1);
    RowOwns(one, f, 1, 1);
    ZeroPrefixNone(High());
    im.WriteFile(f, High(), 1 * BLOCK_SIZE, now);
    Resizes(one, im.bm.img, f, High(), 1, 1, 1 * BLOCK_SIZE);
    SameLive(one, im.bm.img, f);
    assert High()[..BLOCK_SIZE] == High();
    HighNow(im.bm.img, f);
  }

  lemma LeftoverOfEmpty(img: Image, g: nat, buf: Block)
    requires |img| == BLOCK_NUM && Live(img, g) && Ino(img, g).size == 0 && Ino(img, g).blocks == Slots()
    ensures Leftovers(img, g, buf) == {ELSEWHERE as nat}
  {
  }

  lemma BittenThere(img: Image, img': Image, f: nat, g: nat, buf: Block)
    requires HighFile(img, f) && f != g && RemovedFile(img, img', g, buf)
    requires Ino(img, g).size == 0 && Ino(img, g).blocks == Slots()
    ensures Spared(img, g, Leftovers(img, g, buf)) && img'[FIRST_DATA] != img[FIRST_DATA]
  {
    var ino := Ino(img, g);
    LeftoverOfEmpty(img, g, buf);
    forall j: nat ensures !Owns(img, j, ELSEWHERE) {
      if Owns(img, j, ELSEWHERE) { OwnedOnDisk(img, Ino(img, j)); }
    }
    ReleasedIs(img, g, buf);
    var gone := Released(ino.blocks, TableRead(img, ino, buf), Taken(ino.size));
    assert ELSEWHERE as nat in Leftovers(img, g, buf);
    BlockKeptIff(img, img', g, gone, Leaked(img, ino), Leftovers(img, g, buf), FIRST_DATA);
  }

  /** File f holds one block of ones.  A new file gets an inode whose unset slots happen to hold an id
      beyond the bitmap, and is removed at once, while it is empty: no leftover id is a block of f's,
      but f's block has changed. */
  method LeftoverBites(now: Word, buf: Block) returns (im: InodeManager, g: nat, ghost before: Image)
    ensures im.Valid() && Sound(before) && Live(before, g) && RemovedFile(before, im.bm.img, g, buf)
    ensures g != 2 && Spared(before, g, Leftovers(before, g, buf))
    ensures Owns(before, 2, FIRST_DATA) && im.bm.img[FIRST_DATA] != before[FIRST_DATA]
  {
    im := WriteHigh(now);
    ghost var img := im.bm.img;
    g := im.AllocInode(T_FILE, now, Slots());
    before := im.bm.img;
    HighKept(img, before, g, Ino(before, g));
    im.RemoveFile(g, buf);
    BittenThere(before, im.bm.img, 2, g, buf);
  }

  lemma HighKept(img: Image, img': Image, g: nat, ino: Inode)
    requires HighFile(img, 2) && g != 2 && Stored(img, img', g, ino) && Sound(img') && Untouched(img, img', g)
    ensures HighFile(img', 2)
  {
    OtherKept(img, img', g, 2);
    assert img'[FIRST_DATA] == img[FIRST_DATA];
    RowOwns(img', 2, 1, 1);
  }

  /** A file is appended to until the disk is full, and once more. */
  method FullDiskHurts(now: Word) returns (im: InodeManager, f: nat, ghost before: Image)
    ensures im.Valid() && Sound(before) && Unused(before) == {} && Live(before, f)
    ensures (exists bid :: AppendedBlock(before, im.bm.img, f, bid)) && !Sound(im.bm.img)
  {
    im, f := NewDisk(now);
    var k := 0;
    while k < DATA_BLOCKS - 1
      invariant 0 <= k <= DATA_BLOCKS - 1 && im.Valid() && fresh(im.bm) && fresh(im.bm.blocks)
      invariant Sound(im.bm.img) && Live(im.bm.img, f) && Count(Ino(im.bm.img, f).size) == k
      invariant |Unused(im.bm.img)| == DATA_BLOCKS - k - if k > NDIRECT then 1 else 0
    {
      ghost var img := im.bm.img;
      var more := im.AppendBlock(f);
      CountNext(Ino(img, f).size, Ino(im.bm.img, f).size);
      k := k + 1;
    }
    before := im.bm.img;
    var last := im.AppendBlock(f);
    assert AppendedBlock(before, im.bm.img, f, last.value);
  }
}
