/** What a disk image means: which inodes are live, which blocks each file owns, what each file
    contains, and when an image is sound. */
module FileView {
  import opened DiskLayout
  import opened BlockLayer
  import opened InodeCodec

  const FIRST_DATA := 1028

  lemma FirstDataIs()
    ensures FirstData(BLOCK_NUM, INODE_NUM) == FIRST_DATA
    ensures BBlock(BLOCK_NUM) == 2
  {
  }

  /** The block that holds inode i. */
  function Home(i: nat): nat {
    IBlock(i, BLOCK_NUM)
  }

  function Ino(img: Image, i: nat): Inode
    requires |img| == BLOCK_NUM && i < INODE_NUM
  {
    InodeOf(img[Home(i)])
  }

  predicate Live(img: Image, i: nat)
    requires |img| == BLOCK_NUM
  {
    i < INODE_NUM && Ino(img, i).kind != 0
  }

  /** The number of blocks that `size` bytes need. */
  function Count(size: nat): nat {
    if size % BLOCK_SIZE == 0 then size / BLOCK_SIZE else size / BLOCK_SIZE + 1
  }

  /** The size fits the inode, and the table of indirect ids, if one is needed, is on the disk. */
  predicate Shape(ino: Inode) {
    Count(ino.size) <= MAXFILE && (Count(ino.size) > NDIRECT ==> ino.blocks[NDIRECT] < BLOCK_NUM)
  }

  /** The ids of the file's data blocks, in file order. */
  function Ids(img: Image, ino: Inode): (r: seq<Word>)
    requires |img| == BLOCK_NUM && Shape(ino)
    ensures |r| == Count(ino.size)
  {
    var n := Count(ino.size);
    if n <= NDIRECT then ino.blocks[..n]
    else ino.blocks[..NDIRECT] + TableOf(img[ino.blocks[NDIRECT]])[..n - NDIRECT]
  }

  /** Every block that belongs to the file: its data blocks and, if it has one, its table. */
  function Owned(img: Image, ino: Inode): (r: seq<Word>)
    requires |img| == BLOCK_NUM && Shape(ino)
  {
    Ids(img, ino) + if Count(ino.size) > NDIRECT then [ino.blocks[NDIRECT]] else []
  }

  predicate DataBlock(b: nat) {
    FIRST_DATA <= b < BLOCK_NUM
  }

  function Marks(img: Image): set<nat>
    requires |img| == BLOCK_NUM
  {
    set b | FIRST_DATA <= b < BLOCK_NUM && Marked(img, b)
  }

  function Unused(img: Image): set<nat>
    requires |img| == BLOCK_NUM
  {
    set b | FIRST_DATA <= b < BLOCK_NUM && !Marked(img, b)
  }

  ghost predicate Distinct(s: seq<Word>) {
    forall k, l :: 0 <= k < l < |s| ==> s[k] != s[l]
  }

  /** The file's blocks are distinct, in the data area, and marked. */
  ghost predicate FileOk(img: Image, ino: Inode)
    requires |img| == BLOCK_NUM
  {
    && Shape(ino)
    && Distinct(Owned(img, ino))
    && forall b :: b in Owned(img, ino) ==> b in Marks(img)
  }

  ghost predicate Owns(img: Image, i: nat, b: nat)
    requires |img| == BLOCK_NUM
  {
    Live(img, i) && Shape(Ino(img, i)) && b in Owned(img, Ino(img, i))
  }

  /** Block ownership: every live file is in order and no block has two owners. */
  ghost predicate Sound(img: Image) {
    && |img| == BLOCK_NUM
    && (forall i: nat :: Live(img, i) ==> FileOk(img, Ino(img, i)))
    && (forall i: nat, j: nat, b: nat :: Owns(img, i, b) && Owns(img, j, b) ==> i == j)
  }

  /** On a sound image, inode i is in use, is `ino`, and has n data blocks. */
  ghost predicate HasFile(img: Image, i: nat, ino: Inode, n: nat) {
    Sound(img) && Live(img, i) && ino == Ino(img, i) && n == Count(ino.size)
  }

  // ----- contents -----

  /** The blocks named by ids, one after the other. */
  function Data(img: Image, ids: seq<Word>): (r: seq<Byte>)
    requires forall k :: 0 <= k < |ids| ==> ids[k] < |img|
    ensures |r| == |ids| * BLOCK_SIZE
  {
    seq(|ids| * BLOCK_SIZE, k requires 0 <= k < |ids| * BLOCK_SIZE => img[ids[k / BLOCK_SIZE]][k % BLOCK_SIZE])
  }

  lemma OwnedOnDisk(img: Image, ino: Inode)
    requires |img| == BLOCK_NUM && FileOk(img, ino)
    ensures forall k :: 0 <= k < |Owned(img, ino)| ==> DataBlock(Owned(img, ino)[k])
    ensures forall k :: 0 <= k < |Ids(img, ino)| ==>
                          DataBlock(Ids(img, ino)[k]) && Ids(img, ino)[k] == Owned(img, ino)[k]
  {
    var ids, owned := Ids(img, ino), Owned(img, ino);
    assert forall k :: 0 <= k < |ids| ==> ids[k] == owned[k];
    forall k | 0 <= k < |owned| ensures DataBlock(owned[k]) {
      assert owned[k] in owned;
    }
  }

  /** What read_file promises to return. */
  function Contents(img: Image, ino: Inode): (r: seq<Byte>)
    requires |img| == BLOCK_NUM && FileOk(img, ino)
    ensures |r| == ino.size
  {
    OwnedOnDisk(img, ino);
    Data(img, Ids(img, ino))[..ino.size]
  }

  // ----- an operation on file i leaves the other files alone -----

  /** No other inode changes, and no block that another live file owns changes or loses its mark. */
  ghost predicate Untouched(img: Image, img': Image, i: nat)
    requires |img| == BLOCK_NUM && |img'| == BLOCK_NUM
  {
    && (forall j: nat :: j < INODE_NUM && j != i ==> img'[Home(j)] == img[Home(j)])
    && (forall j: nat, b: nat :: j != i && Owns(img, j, b) && DataBlock(b) ==> img'[b] == img[b] && Marked(img', b))
  }

  lemma OtherKept(img: Image, img': Image, i: nat, j: nat)
    requires Sound(img) && |img'| == BLOCK_NUM && Untouched(img, img', i)
    requires j != i && Live(img, j)
    ensures Live(img', j) && Ino(img', j) == Ino(img, j)
    ensures FileOk(img', Ino(img, j))
    ensures Owned(img', Ino(img, j)) == Owned(img, Ino(img, j))
    ensures Contents(img', Ino(img, j)) == Contents(img, Ino(img, j))
  {
    var ino := Ino(img, j);
    OwnedOnDisk(img, ino);
    var n := Count(ino.size);
    if n > NDIRECT {
      assert ino.blocks[NDIRECT] == Owned(img, ino)[n];
      assert Owns(img, j, ino.blocks[NDIRECT]);
    }
    assert Ids(img', ino) == Ids(img, ino);
    forall b | b in Owned(img', ino) ensures b in Marks(img') {
      assert Owns(img, j, b);
    }
    var ids := Ids(img, ino);
    forall k | 0 <= k < |ids| ensures img'[ids[k]] == img[ids[k]] {
      assert Owns(img, j, ids[k]);
    }
    SameData(img, img', ids);
  }

  /** Nothing changed is nothing touched. */
  lemma UntouchedSelf(img: Image, i: nat)
    requires Sound(img)
    ensures Untouched(img, img, i)
  {
    forall j: nat, b: nat | Owns(img, j, b) && DataBlock(b) ensures Marked(img, b) {
      assert b in Marks(img);
    }
  }

  /** An operation on a file that was live and is leaves the same inodes live. */
  lemma SameLive(img: Image, img': Image, i: nat)
    requires |img| == BLOCK_NUM && |img'| == BLOCK_NUM && Untouched(img, img', i) && Live(img', i)
    ensures forall j: nat :: Live(img, j) ==> Live(img', j)
    ensures Live(img, i) ==> forall j: nat :: Live(img', j) <==> Live(img, j)
  {
  }

  lemma SameData(img: Image, img': Image, ids: seq<Word>)
    requires |img| == |img'|
    requires forall k :: 0 <= k < |ids| ==> ids[k] < |img| && img'[ids[k]] == img[ids[k]]
    ensures Data(img', ids) == Data(img, ids)
  {
    forall k | 0 <= k < |ids| * BLOCK_SIZE ensures Data(img', ids)[k] == Data(img, ids)[k] {
      assert 0 <= k / BLOCK_SIZE < |ids|;
    }
  }

  /** If the new state of file i is in order and takes nothing from the others, the image is sound. */
  lemma Commit(img: Image, img': Image, i: nat)
    requires Sound(img) && |img'| == BLOCK_NUM && i < INODE_NUM && Untouched(img, img', i)
    requires Live(img', i) ==> FileOk(img', Ino(img', i))
    requires forall j: nat, b: nat :: j != i && Owns(img, j, b) ==> !Owns(img', i, b)
    ensures Sound(img')
  {
    forall j: nat, b: nat | j != i ensures Owns(img', j, b) <==> Owns(img, j, b) {
      if Live(img, j) { OtherKept(img, img', i, j); }
    }
    forall j: nat | Live(img', j) ensures FileOk(img', Ino(img', j)) {
      if j != i { OtherKept(img, img', i, j); }
    }
  }

  // ----- the empty disk -----

  lemma ZeroImage(img: Image)
    requires |img| == BLOCK_NUM && forall b: nat :: b < BLOCK_NUM ==> img[b] == Zero()
    ensures Sound(img) && Marks(img) == {} && forall i: nat :: !Live(img, i)
  {
    forall b: nat | DataBlock(b) ensures !Marked(img, b) { ZeroBit(b % BPB); }
    forall i: nat ensures !Live(img, i) { ZeroInode(); }
  }

  lemma ZeroBit(i: nat)
    requires i < BPB
    ensures !BitAt(Zero(), i)
  {
  }

  lemma ZeroInode()
    ensures InodeOf(Zero()).kind == 0
  {
  }
}
