/** A file written through the name node: create, add blocks, write them, complete, read. */
module WriteSession {
  import opened Options
  import opened DiskLayout
  import opened BlockLayer
  import opened InodeCodec
  import opened FileView
  import opened FilePlan
  import opened FileDone
  import opened FileAppend
  import opened InodeLayer

  // ----- a file under construction -----

  /** The file has |drafts| whole blocks, and block k holds drafts[k]. */
  ghost predicate Draft(img: Image, i: nat, drafts: seq<Block>) {
    && Sound(img) && Live(img, i) && Shape(Ino(img, i))
    && Ino(img, i).size == |drafts| * BLOCK_SIZE && |Ids(img, Ino(img, i))| == |drafts|
    && forall k :: 0 <= k < |drafts| ==> HoldsAt(img, Ids(img, Ino(img, i))[k], drafts[k])
  }

  ghost predicate HoldsAt(img: Image, b: Word, content: Block)
    requires |img| == BLOCK_NUM
  {
    DataBlock(b) && img[b] == content
  }

  lemma DraftEmpty(img: Image, i: nat)
    requires Sound(img) && Live(img, i) && Ino(img, i).size == 0
    ensures Draft(img, i, [])
  {
  }

  /** An appended block holds whatever the disk held there. */
  lemma DraftAppend(img: Image, img': Image, i: nat, drafts: seq<Block>, bid: Word)
    requires Draft(img, i, drafts) && Appended(img, img', i, bid)
    ensures DataBlock(bid) && Draft(img', i, drafts + [img[bid]])
  {
    var ids, ids' := Ids(img, Ino(img, i)), Ids(img', Ino(img', i));
    assert DataBlock(bid);
    AppendHolds(img, img', ids, ids', drafts, bid);
    CountNext(Ino(img, i).size, Ino(img', i).size);
  }

  lemma AppendHolds(img: Image, img': Image, ids: seq<Word>, ids': seq<Word>, drafts: seq<Block>, bid: Word)
    requires |img| == BLOCK_NUM && |img'| == BLOCK_NUM && |ids| == |drafts| && DataBlock(bid)
    requires ids' == ids + [bid] && forall b :: b in ids' && DataBlock(b) ==> img'[b] == img[b]
    requires forall k :: 0 <= k < |drafts| ==> HoldsAt(img, ids[k], drafts[k])
    ensures forall k :: 0 <= k < |drafts| + 1 ==> HoldsAt(img', ids'[k], (drafts + [img[bid]])[k])
  {
    forall k | 0 <= k < |drafts| + 1 ensures HoldsAt(img', ids'[k], (drafts + [img[bid]])[k]) {
      assert ids'[k] in ids';
      if k < |drafts| { assert HoldsAt(img, ids[k], drafts[k]); }
    }
  }

  /** Writing block k of the file changes that block of the draft and no other file. */
  lemma DraftWrite(img: Image, img': Image, i: nat, drafts: seq<Block>, k: nat, content: Block)
    requires Draft(img, i, drafts) && k < |drafts|
    requires img' == img[Ids(img, Ino(img, i))[k] := content]
    ensures Draft(img', i, drafts[k := content]) && Untouched(img, img', i)
    ensures Ids(img', Ino(img', i)) == Ids(img, Ino(img, i)) && Ino(img', i) == Ino(img, i)
    ensures Marks(img') == Marks(img) && Unused(img') == Unused(img)
  {
    var ino := Ino(img, i);
    var ids, owned := Ids(img, ino), Owned(img, ino);
    var b := ids[k];
    assert HoldsAt(img, b, drafts[k]);
    SameBitmap(img, img');
    assert owned[k] == b && b in OwnedSet(img, i);
    BlockKeepsIds(img, img', i, k, content);
    EffectSound(img, img', i, {}, {}, {b as nat});
    forall l | 0 <= l < |drafts| ensures HoldsAt(img', ids[l], drafts[k := content][l]) {
      assert HoldsAt(img, ids[l], drafts[l]);
      assert owned[l] == ids[l];
    }
  }

  /** A data block is not the file's table. */
  lemma BlockKeepsIds(img: Image, img': Image, i: nat, k: nat, content: Block)
    requires Sound(img) && Live(img, i) && Shape(Ino(img, i)) && k < |Ids(img, Ino(img, i))|
    requires DataBlock(Ids(img, Ino(img, i))[k]) && img' == img[Ids(img, Ino(img, i))[k] := content]
    ensures Ino(img', i) == Ino(img, i) && Live(img', i)
    ensures Ids(img', Ino(img, i)) == Ids(img, Ino(img, i)) && Owned(img', Ino(img, i)) == Owned(img, Ino(img, i))
  {
    var ino := Ino(img, i);
    var n, owned := Count(ino.size), Owned(img, ino);
    if n > NDIRECT {
      assert owned[n] == ino.blocks[NDIRECT] && owned[k] == Ids(img, ino)[k];
    }
  }

  /** What others do to their files leaves the draft alone. */
  lemma DraftKept(img: Image, img': Image, i: nat, j: nat, drafts: seq<Block>)
    requires Draft(img, i, drafts) && j != i && Sound(img') && Untouched(img, img', j)
    ensures Draft(img', i, drafts)
  {
    OtherKept(img, img', j, i);
    var ino := Ino(img, i);
    var ids := Ids(img, ino);
    assert Ids(img', ino) == Owned(img', ino)[..|ids|] && ids == Owned(img, ino)[..|ids|];
    forall k | 0 <= k < |drafts| ensures HoldsAt(img', ids[k], drafts[k]) {
      assert HoldsAt(img, ids[k], drafts[k]) && Owned(img, ino)[k] == ids[k] && Owns(img, i, ids[k]);
    }
  }

  /** The drafts one after the other. */
  function Flat(drafts: seq<Block>): (r: seq<Byte>)
    ensures |r| == |drafts| * BLOCK_SIZE
  {
    if drafts == [] then [] else Flat(drafts[..|drafts| - 1]) + drafts[|drafts| - 1]
  }

  lemma {:induction false} FlatIsData(img: Image, ids: seq<Word>, drafts: seq<Block>)
    requires |img| == BLOCK_NUM && |ids| == |drafts| && forall k :: 0 <= k < |ids| ==> HoldsAt(img, ids[k], drafts[k])
    ensures (forall k :: 0 <= k < |ids| ==> ids[k] < |img|) && Data(img, ids) == Flat(drafts)
  {
    assert forall k :: 0 <= k < |ids| ==> HoldsAt(img, ids[k], drafts[k]);
    if ids != [] {
      var n := |ids| - 1;
      FlatIsData(img, ids[..n], drafts[..n]);
      assert ids == ids[..n + 1];
      assert HoldsAt(img, ids[n], drafts[n]);
      DataSnoc(img, ids, n);
    }
  }

  lemma SessionSize(k: nat, n: nat)
    requires 0 < k && 0 < n <= BLOCK_SIZE
    ensures Count((k - 1) * BLOCK_SIZE + n) == k && Count(k * BLOCK_SIZE) == k
    ensures (k - 1) * BLOCK_SIZE + n <= k * BLOCK_SIZE
  {
    var size := (k - 1) * BLOCK_SIZE + n;
    if n < BLOCK_SIZE {
      assert size / BLOCK_SIZE == k - 1 && size % BLOCK_SIZE == n;
    } else {
      assert size == k * BLOCK_SIZE;
    }
  }

  /** The file is the first `size` bytes of the blocks in data, and its blocks hold them. */
  ghost predicate Holds(img: Image, i: nat, data: seq<Block>, size: nat) {
    && Sound(img) && Live(img, i) && Shape(Ino(img, i)) && Ino(img, i).size == size <= |Flat(data)|
    && Contents(img, Ino(img, i)) == Flat(data)[..size]
    && |Ids(img, Ino(img, i))| == |data|
    && forall k :: 0 <= k < |data| ==> HoldsAt(img, Ids(img, Ino(img, i))[k], data[k])
  }

  /** After complete the file is the drafts, cut to the size. */
  lemma DraftDone(img: Image, img': Image, i: nat, drafts: seq<Block>, ino': Inode)
    requires Draft(img, i, drafts) && Sound(img') && Live(img', i) && ino' == Ino(img', i) && Shape(ino')
    requires Count(ino'.size) == |drafts| && Ids(img', ino') == Ids(img, Ino(img, i))
    requires forall b: nat :: DataBlock(b) ==> img'[b] == img[b]
    ensures Holds(img', i, drafts, ino'.size)
  {
    var ids := Ids(img', ino');
    forall k | 0 <= k < |ids| ensures HoldsAt(img', ids[k], drafts[k]) { assert HoldsAt(img, ids[k], drafts[k]); }
    FlatIsData(img', ids, drafts);
  }

  /** A new atime changes none of this. */
  lemma HoldsStill(img: Image, img': Image, i: nat, data: seq<Block>, size: nat, ino': Inode)
    requires Holds(img, i, data, size) && Stored(img, img', i, ino')
    requires ino'.kind == Ino(img, i).kind && ino'.size == size && ino'.blocks == Ino(img, i).blocks
    ensures Holds(img', i, data, size)
  {
    TouchSound(img, img', i, ino');
    var ids := Ids(img, Ino(img, i));
    assert Ids(img', ino') == Owned(img', ino')[..|ids|] && ids == Owned(img, Ino(img, i))[..|ids|];
    forall k | 0 <= k < |data| ensures HoldsAt(img', ids[k], data[k]) { assert HoldsAt(img, ids[k], data[k]); }
  }

  lemma UntouchedTrans(img: Image, img1: Image, img2: Image, i: nat)
    requires Sound(img) && Sound(img1) && |img2| == BLOCK_NUM
    requires Untouched(img, img1, i) && Untouched(img1, img2, i)
    ensures Untouched(img, img2, i)
  {
    forall j: nat, b: nat | j != i && Owns(img, j, b) && DataBlock(b) ensures img2[b] == img[b] && Marked(img2, b) {
      OtherKept(img, img1, i, j);
      assert Owns(img1, j, b);
    }
  }

  /** The blocks still to be taken when k of n have been added. */
  function RoomFor(k: nat, n: nat): nat
    requires k <= n
  {
    n - k + if k <= NDIRECT < n then 1 else 0
  }

  lemma RoomNext(k: nat, n: nat)
    requires k < n
    ensures RoomFor(k, n) == RoomFor(k + 1, n) + AppendTakes(k)
  {
  }

  // ----- block locations -----

  datatype LocatedBlock = LocatedBlock(blockId: Word, offset: nat, size: nat)

  /** The located blocks follow one another without gap or overlap from `from` to `to`. */
  ghost predicate Tiles(lbs: seq<LocatedBlock>, from: nat, to: nat) {
    && (lbs == [] ==> from == to)
    && (lbs != [] ==> lbs[0].offset == from && lbs[|lbs| - 1].offset + lbs[|lbs| - 1].size == to)
    && forall k :: 0 < k < |lbs| ==> lbs[k].offset == lbs[k - 1].offset + lbs[k - 1].size
  }

  /** The count kept for a file with k blocks added. */
  function PendingAt(k: nat): Word {
    (k * BLOCK_SIZE) % WORD
  }

  function NextPending(pending: Word): Word {
    (pending + BLOCK_SIZE) % WORD
  }

  lemma PendingNext(k: nat)
    ensures NextPending(PendingAt(k)) == PendingAt(k + 1)
  {
  }

  /** The size of a file of k blocks whose last block has n bytes. */
  function FileSize(k: nat, n: Word): nat {
    if k == 0 then 0 else (k - 1) * BLOCK_SIZE + n
  }

  /** The disk is too small for the 32-bit sizes to wrap around. */
  lemma SessionFits(img: Image, i: nat, data: seq<Block>, n: Word)
    requires Draft(img, i, data) && (data != [] ==> 0 < n <= BLOCK_SIZE)
    ensures SizeAtEnd(PendingAt(|data|), LastOf(data, n)) == FileSize(|data|, n) <= |Flat(data)|
    ensures Count(FileSize(|data|, n)) == |data| && Count(|data| * BLOCK_SIZE) == |data|
  {
    if data != [] {
      CountBound(img, i);
      FitsInWord(|data|, n);
      SessionSize(|data|, n);
    }
  }

  /** What the client sends with complete: the length of the last block, if there is one. */
  function LastOf(data: seq<Block>, n: Word): Option<Word> {
    if data == [] then None else Some(n)
  }

  lemma FitsInWord(k: nat, n: Word)
    requires 0 < k && k * BLOCK_SIZE <= (BLOCK_NUM - FIRST_DATA) * BLOCK_SIZE && 0 < n <= BLOCK_SIZE
    ensures SizeAtEnd(PendingAt(k), Some(n)) == (k - 1) * BLOCK_SIZE + n
  {
    Small(k * BLOCK_SIZE);
    Small((k - 1) * BLOCK_SIZE);
    Small((k - 1) * BLOCK_SIZE + n);
  }

  lemma Small(x: nat)
    requires x < WORD
    ensures x % WORD == x
  {
  }

  lemma OneFurther(data: seq<Block>, k: nat, b: Block)
    requires k < |data|
    ensures (data[..k] + [b])[k := data[k]] == data[..k + 1]
  {
  }

  /** Both updates are on 32-bit unsigned numbers. */
  function SizeAtEnd(pending: Word, last: Option<Word>): Word {
    if last.Some? then ((pending - BLOCK_SIZE) % WORD + last.value) % WORD else pending
  }

  /** The size that AddBlock puts on the block after a file of this size. */
  function OfferedSize(size: nat): nat {
    if size % BLOCK_SIZE == 0 then BLOCK_SIZE else size % BLOCK_SIZE
  }

  /** Writes are pending on live files only, and on number 0 after a create that found no inode.
      Deleting such a file waits for its lock, which is held until the write is complete. */
  ghost predicate Pends(img: Image, pending: map<nat, Word>)
    requires |img| == BLOCK_NUM
  {
    forall i :: i in pending ==> i == 0 || Live(img, i)
  }

  lemma CountTwice(pending: map<nat, Word>, i: nat, a: Word, b: Word)
    ensures pending[i := a][i := b] == pending[i := b]
  {
  }

  lemma CountAndDrop(pending: map<nat, Word>, i: nat, a: Word)
    requires i !in pending
    ensures pending[i := a] - {i} == pending
  {
  }

  /** Counting on a file leaves the pending writes on live files. */
  lemma PendsStill(img: Image, img': Image, i: nat, pending: map<nat, Word>, count: Word)
    requires |img| == BLOCK_NUM && |img'| == BLOCK_NUM && Pends(img, pending) && Live(img', i)
    requires Untouched(img, img', i)
    ensures Pends(img', pending[i := count]) && Pends(img', pending - {i})
    ensures Pends(img', pending)
  {
    SameLive(img, img', i);
  }

  /** A new inode: an empty draft, with no write pending on it so far. */
  ghost predicate Fresh(img: Image, img': Image, i: nat) {
    && Sound(img) && !Live(img, i) && Draft(img', i, []) && Untouched(img, img', i) && Unused(img') == Unused(img)
  }

  lemma FreshDraft(img: Image, img': Image, i: nat, ino: Inode, pending: map<nat, Word>)
    requires Sound(img) && Sound(img') && i != 0 && !Live(img, i) && Untouched(img, img', i)
    requires Stored(img, img', i, ino) && ino.kind != 0 && ino.size == 0 && Pends(img, pending)
    ensures Fresh(img, img', i) && i !in pending && Pends(img', pending[i := 0])
  {
    DraftEmpty(img', i);
    SameBitmap(img, img');
    PendsStill(img, img', i, pending, 0);
  }

  /** Midway: |drafts| of n blocks have been added to file i and written, since image `first` and
      the pending writes `base`. */
  ghost predicate Writing(first: Image, base: map<nat, Word>, img: Image, pending: map<nat, Word>,
                          i: nat, drafts: seq<Block>, n: nat) {
    && Sound(first) && Draft(img, i, drafts) && Untouched(first, img, i) && Pends(img, pending)
    && |drafts| <= n && pending == base[i := PendingAt(|drafts|)] && |Unused(img)| >= RoomFor(|drafts|, n)
  }

  lemma WritingStarts(first: Image, base: map<nat, Word>, img: Image, i: nat, n: nat)
    requires Fresh(first, img, i) && Pends(img, base[i := 0]) && |Unused(first)| >= RoomFor(0, n)
    ensures Writing(first, base, img, base[i := 0], i, [], n)
  {
  }

  lemma WritingNext(first: Image, base: map<nat, Word>, img: Image, pending: map<nat, Word>, img': Image,
                    pending': map<nat, Word>, i: nat, data: seq<Block>, k: nat)
    requires k < |data| && Writing(first, base, img, pending, i, data[..k], |data|)
    requires Draft(img', i, data[..k + 1]) && Untouched(img, img', i) && Pends(img', pending')
    requires pending' == pending[i := NextPending(PendingAt(k))]
    requires |Unused(img')| == |Unused(img)| - AppendTakes(k)
    ensures Writing(first, base, img', pending', i, data[..k + 1], |data|)
  {
    RoomNext(k, |data|);
    UntouchedTrans(first, img, img', i);
    PendingNext(k);
    CountTwice(base, i, PendingAt(k), PendingAt(k + 1));
  }

  class NameNode {
    const im: InodeManager
    var pendingWrite: map<nat, Word>

    ghost predicate Valid()
      reads this, im, im.bm, im.bm.blocks
    {
      im.Valid()
    }

    constructor (im: InodeManager)
      requires im.Valid()
      ensures Valid() && this.im == im && pendingWrite == map[] && Pends(im.bm.img, pendingWrite)
    {
      this.im := im;
      pendingWrite := map[];
    }

    /** Create: a new inode and its entry among the pending writes, also under number 0 when there
        was no inode left.  Inserting into the map keeps an entry that is already there; a new file
        has none. */
    method Create(now: Word, garbage: seq<Word>) returns (ino: nat)
      requires Valid() && Sound(im.bm.img) && Pends(im.bm.img, pendingWrite) && |garbage| == NDIRECT + 1
      modifies `pendingWrite, im.bm`img, im.bm.blocks
      ensures Valid() && Pends(im.bm.img, pendingWrite) && Sound(im.bm.img)
      ensures ino == 0 ==>
                && im.bm.img == old(im.bm.img) && (forall i: nat :: 1 <= i < INODE_NUM ==> Live(im.bm.img, i))
                && pendingWrite == old(pendingWrite)[0 := if 0 in old(pendingWrite) then old(pendingWrite)[0] else 0]
      ensures ino != 0 ==>
                && Fresh(old(im.bm.img), im.bm.img, ino) && ino !in old(pendingWrite)
                && pendingWrite == old(pendingWrite)[ino := 0]
    {
      ino := im.AllocInode(T_FILE, now, garbage);
      if ino != 0 {
        FreshDraft(old(im.bm.img), im.bm.img, ino, Ino(im.bm.img, ino), pendingWrite);
      }
      if ino !in pendingWrite {
        pendingWrite := pendingWrite[ino := 0];
      }
    }

    /** AddBlock: None when no write is pending on the file.  Without an inode the count goes up all
        the same and the block id is whatever the reply held. */
    method AddBlock(ino: nat) returns (r: Option<LocatedBlock>)
      requires Valid() && Sound(im.bm.img)
      modifies `pendingWrite, im.bm`img, im.bm.blocks
      ensures Valid()
      ensures r.None? <==> ino !in old(pendingWrite)
      ensures r.None? ==> pendingWrite == old(pendingWrite) && im.bm.img == old(im.bm.img)
      ensures r.Some? ==> pendingWrite == old(pendingWrite)[ino := NextPending(old(pendingWrite)[ino])]
      ensures r.Some? && !Live(old(im.bm.img), ino) ==>
                im.bm.img == old(im.bm.img) && r.value.offset == 0 && r.value.size == BLOCK_SIZE
      ensures r.Some? && Live(old(im.bm.img), ino) ==>
                && AppendedBlock(old(im.bm.img), im.bm.img, ino, r.value.blockId)
                && r.value.offset == Ino(old(im.bm.img), ino).size
                && r.value.size == OfferedSize(Ino(old(im.bm.img), ino).size)
      ensures Pends(old(im.bm.img), old(pendingWrite)) && Sound(im.bm.img) ==> Pends(im.bm.img, pendingWrite)
    {
      if ino !in pendingWrite {
        return None;
      }
      var attr := im.GetInode(ino);
      var appended := im.AppendBlock(ino);
      if Live(old(im.bm.img), ino) && Sound(im.bm.img) && Pends(old(im.bm.img), pendingWrite) {
        PendsStill(old(im.bm.img), im.bm.img, ino, pendingWrite, NextPending(pendingWrite[ino]));
      }
      var bid: Word := *;
      if appended.Some? {
        bid := appended.value;
      }
      var before := if attr.Some? then attr.value.size else 0;
      pendingWrite := pendingWrite[ino := NextPending(pendingWrite[ino])];
      r := Some(LocatedBlock(bid, before, OfferedSize(before)));
    }

    /** A block arriving at its place on the disk. */
    method PutBlock(ino: nat, id: Word, content: Block, ghost drafts: seq<Block>, ghost k: nat)
      requires Valid() && Draft(im.bm.img, ino, drafts) && k < |drafts| && Ids(im.bm.img, Ino(im.bm.img, ino))[k] == id
      modifies im.bm`img, im.bm.blocks
      ensures Valid() && Draft(im.bm.img, ino, drafts[k := content]) && Untouched(old(im.bm.img), im.bm.img, ino)
      ensures Ids(im.bm.img, Ino(im.bm.img, ino)) == Ids(old(im.bm.img), Ino(old(im.bm.img), ino))
      ensures Unused(im.bm.img) == Unused(old(im.bm.img))
    {
      assert HoldsAt(im.bm.img, id, drafts[k]);
      im.bm.WriteBlock(id, content);
      DraftWrite(old(im.bm.img), im.bm.img, ino, drafts, k, content);
    }

    /** Complete: false when no write is pending.  With `last`, the last block counts that many
        bytes instead of a whole block.  The source dereferences null when there is no inode. */
    method Complete(ino: nat, last: Option<Word>, now: Word) returns (ok: bool)
      requires Valid() && Sound(im.bm.img) && (ino in pendingWrite ==> Live(im.bm.img, ino))
      modifies `pendingWrite, im.bm`img, im.bm.blocks
      ensures Valid()
      ensures ok <==> ino in old(pendingWrite)
      ensures !ok ==> pendingWrite == old(pendingWrite) && im.bm.img == old(im.bm.img)
      ensures ok ==> pendingWrite == old(pendingWrite) - {ino}
      ensures ok ==> Completed(old(im.bm.img), im.bm.img, ino, SizeAtEnd(old(pendingWrite)[ino], last), now)
      ensures Pends(old(im.bm.img), old(pendingWrite)) ==> Pends(im.bm.img, pendingWrite)
    {
      if ino !in pendingWrite {
        return false;
      }
      var size := SizeAtEnd(pendingWrite[ino], last);
      pendingWrite := pendingWrite - {ino};
      im.Complete(ino, size, now);
      SameLive(old(im.bm.img), im.bm.img, ino);
      ok := true;
    }

    method WriteNext(ino: nat, data: seq<Block>, k: nat)
      requires Valid() && Pends(im.bm.img, pendingWrite) && k < |data| && Draft(im.bm.img, ino, data[..k])
      requires ino in pendingWrite
      requires |Unused(im.bm.img)| >= AppendTakes(k)
      modifies `pendingWrite, im.bm`img, im.bm.blocks
      ensures Valid() && Pends(im.bm.img, pendingWrite) && Draft(im.bm.img, ino, data[..k + 1])
      ensures Untouched(old(im.bm.img), im.bm.img, ino)
      ensures pendingWrite == old(pendingWrite)[ino := NextPending(old(pendingWrite)[ino])]
      ensures |Unused(im.bm.img)| == |Unused(old(im.bm.img))| - AppendTakes(k)
    {
      ghost var img := im.bm.img;
      var added := AddBlock(ino);
      var id := added.value.blockId;
      ghost var img1 := im.bm.img;
      DraftAppend(img, img1, ino, data[..k], id);
      ghost var drafts := data[..k] + [img[id]];
      PutBlock(ino, id, data[k], drafts, k);
      OneFurther(data, k, img[id]);
      UntouchedTrans(img, img1, im.bm.img, ino);
      PendsStill(img1, im.bm.img, ino, pendingWrite, 0);
    }

    method Advance(ino: nat, data: seq<Block>, k: nat, ghost first: Image, ghost base: map<nat, Word>)
      requires Valid() && k < |data| && Writing(first, base, im.bm.img, pendingWrite, ino, data[..k], |data|)
      modifies `pendingWrite, im.bm`img, im.bm.blocks
      ensures Valid() && Writing(first, base, im.bm.img, pendingWrite, ino, data[..k + 1], |data|)
    {
      ghost var img, pending := im.bm.img, pendingWrite;
      RoomNext(k, |data|);
      WriteNext(ino, data, k);
      WritingNext(first, base, img, pending, im.bm.img, pendingWrite, ino, data, k);
    }

    /** Adds and writes the blocks of `data`, one after the other. */
    method WriteBlocks(ino: nat, data: seq<Block>, ghost first: Image, ghost base: map<nat, Word>)
      requires Valid() && Writing(first, base, im.bm.img, pendingWrite, ino, [], |data|)
      modifies `pendingWrite, im.bm`img, im.bm.blocks
      ensures Valid() && Writing(first, base, im.bm.img, pendingWrite, ino, data, |data|)
    {
      assert data[..0] == [];
      var k := 0;
      while k < |data|
        invariant 0 <= k <= |data| && Valid()
        invariant Writing(first, base, im.bm.img, pendingWrite, ino, data[..k], |data|)
      {
        Advance(ino, data, k, first, base);
        k := k + 1;
      }
      assert data[..k] == data;
    }

    method Finish(ino: nat, data: seq<Block>, n: Word, now: Word)
      requires Valid() && Pends(im.bm.img, pendingWrite) && Draft(im.bm.img, ino, data)
      requires (data != [] ==> 0 < n <= BLOCK_SIZE)
      requires ino in pendingWrite && pendingWrite[ino] == PendingAt(|data|)
      modifies `pendingWrite, im.bm`img, im.bm.blocks
      ensures Valid() && Pends(im.bm.img, pendingWrite) && Untouched(old(im.bm.img), im.bm.img, ino)
      ensures pendingWrite == old(pendingWrite) - {ino} && Holds(im.bm.img, ino, data, FileSize(|data|, n))
    {
      ghost var img := im.bm.img;
      SessionFits(img, ino, data, n);
      var ok := Complete(ino, LastOf(data, n), now);
      assert Ids(img, Ino(img, ino))[..|data|] == Ids(img, Ino(img, ino));
      DraftDone(img, im.bm.img, ino, data, Ino(im.bm.img, ino));
    }

    /** What a reader gets: the bytes and the places of the blocks. */
    method ReadBack(ino: nat, now: Word, ghost data: seq<Block>, ghost size: nat)
      returns (bytes: Option<seq<Byte>>, lbs: seq<LocatedBlock>)
      requires Valid() && Pends(im.bm.img, pendingWrite) && Holds(im.bm.img, ino, data, size)
      modifies im.bm`img, im.bm.blocks
      ensures Valid() && Pends(im.bm.img, pendingWrite) && Holds(im.bm.img, ino, data, size)
      ensures Untouched(old(im.bm.img), im.bm.img, ino)
      ensures bytes == Some(Flat(data)[..size])
      ensures Tiles(lbs, 0, size) && |lbs| == |data|
      ensures forall k :: 0 <= k < |lbs| ==> HoldsAt(im.bm.img, lbs[k].blockId, data[k])
    {
      ghost var img := im.bm.img;
      bytes := im.ReadFile(ino, now);
      HoldsStill(img, im.bm.img, ino, data, size, Ino(im.bm.img, ino));
      TouchSound(img, im.bm.img, ino, Ino(im.bm.img, ino));
      PendsStill(img, im.bm.img, ino, pendingWrite, 0);
      lbs := GetBlockLocations(ino);
    }

    /** The whole life of a write: create, add and write the blocks, complete, and read back.  What
        was written is what is read, cut to the length given with complete, the block locations
        cover it, and no other file has changed. */
    method Session(data: seq<Block>, n: Word, now: Word, garbage: seq<Word>)
      returns (ino: nat, bytes: Option<seq<Byte>>, lbs: seq<LocatedBlock>)
      requires Valid() && Pends(im.bm.img, pendingWrite) && Sound(im.bm.img) && |garbage| == NDIRECT + 1
      requires (data != [] ==> 0 < n <= BLOCK_SIZE) && |Unused(im.bm.img)| >= RoomFor(0, |data|)
      modifies `pendingWrite, im.bm`img, im.bm.blocks
      ensures Valid() && Pends(im.bm.img, pendingWrite) && Sound(im.bm.img)
      ensures ino == 0 ==> im.bm.img == old(im.bm.img) && forall i: nat :: 1 <= i < INODE_NUM ==> Live(im.bm.img, i)
      ensures ino != 0 ==>
                && !Live(old(im.bm.img), ino) && Untouched(old(im.bm.img), im.bm.img, ino)
                && pendingWrite == old(pendingWrite)
                && Holds(im.bm.img, ino, data, FileSize(|data|, n)) && bytes == Some(Flat(data)[..FileSize(|data|, n)])
                && Tiles(lbs, 0, FileSize(|data|, n)) && |lbs| == |data|
                && forall k :: 0 <= k < |lbs| ==> HoldsAt(im.bm.img, lbs[k].blockId, data[k])
    {
      bytes, lbs := None, [];
      ghost var img := im.bm.img;
      ino := Create(now, garbage);
      if ino != 0 {
        WritingStarts(img, old(pendingWrite), im.bm.img, ino, |data|);
        Fill(ino, data, n, now, img, old(pendingWrite));
        ghost var mid := im.bm.img;
        bytes, lbs := ReadBack(ino, now, data, FileSize(|data|, n));
        UntouchedTrans(img, mid, im.bm.img, ino);
      }
    }

    /** From create to complete. */
    method Fill(ino: nat, data: seq<Block>, n: Word, now: Word, ghost first: Image, ghost base: map<nat, Word>)
      requires Valid() && Writing(first, base, im.bm.img, pendingWrite, ino, [], |data|) && ino !in base
      requires data != [] ==> 0 < n <= BLOCK_SIZE
      modifies `pendingWrite, im.bm`img, im.bm.blocks
      ensures Valid() && Pends(im.bm.img, pendingWrite) && Untouched(first, im.bm.img, ino)
      ensures pendingWrite == base && Holds(im.bm.img, ino, data, FileSize(|data|, n))
    {
      WriteBlocks(ino, data, first, base);
      ghost var mid := im.bm.img;
      CountAndDrop(base, ino, PendingAt(|data|));
      Finish(ino, data, n, now);
      UntouchedTrans(first, mid, im.bm.img, ino);
    }

    /** GetBlockLocations: one entry for every block, together covering the file. */
    method GetBlockLocations(ino: nat) returns (lbs: seq<LocatedBlock>)
      requires Valid() && Sound(im.bm.img) && Live(im.bm.img, ino)
      ensures Shape(Ino(im.bm.img, ino))
      ensures |lbs| == Count(Ino(im.bm.img, ino).size)
      ensures forall k :: 0 <= k < |lbs| ==> lbs[k].blockId == Ids(im.bm.img, Ino(im.bm.img, ino))[k]
      ensures forall k :: 0 <= k < |lbs| ==> 0 < lbs[k].size <= BLOCK_SIZE && lbs[k].offset == k * BLOCK_SIZE
      ensures Tiles(lbs, 0, Ino(im.bm.img, ino).size)
    {
      var ids := im.GetBlockIds(ino);
      var attr := im.GetInode(ino);
      var size := attr.value.size;
      lbs := Locate(ids, size);
    }
  }

  /** The loop of GetBlockLocations: all blocks are whole but the last, which has what is left. */
  method Locate(ids: seq<Word>, size: nat) returns (lbs: seq<LocatedBlock>)
    requires |ids| == Count(size)
    ensures |lbs| == |ids|
    ensures forall k :: 0 <= k < |lbs| ==> lbs[k].blockId == ids[k]
    ensures forall k :: 0 <= k < |lbs| ==> 0 < lbs[k].size <= BLOCK_SIZE && lbs[k].offset == k * BLOCK_SIZE
    ensures Tiles(lbs, 0, size)
  {
    lbs := [];
    var index, offset := 0, 0;
    while index < |ids|
      invariant 0 <= index == |lbs| <= |ids| && offset == index * BLOCK_SIZE
      invariant forall k :: 0 <= k < |lbs| ==> lbs[k].blockId == ids[k] && lbs[k].offset == k * BLOCK_SIZE
      invariant forall k :: 0 <= k < |lbs| ==>
                              lbs[k].size == if k < |ids| - 1 then BLOCK_SIZE else size - k * BLOCK_SIZE
    {
      var blockSize := if index < |ids| - 1 then BLOCK_SIZE else size - offset;
      lbs := lbs + [LocatedBlock(ids[index], offset, blockSize)];
      offset := offset + BLOCK_SIZE;
      index := index + 1;
    }
  }
}
