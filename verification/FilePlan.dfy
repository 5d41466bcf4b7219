/** How a write reshapes a file: which blocks it keeps, takes and gives up, and why the image is
    sound again once the new inode is stored. */
module FilePlan {
  import opened DiskLayout
  import opened BlockLayer
  import opened FileView

  ghost function Elems(s: seq<Word>): set<nat> {
    set b: nat | b in s
  }

  lemma ElemsSnoc(s: seq<Word>, b: Word)
    ensures Elems(s + [b]) == Elems(s) + {b}
  {
  }

  lemma ElemsConcat(s: seq<Word>, t: seq<Word>)
    ensures Elems(s + t) == Elems(s) + Elems(t)
  {
  }

  lemma DistinctConcat(s: seq<Word>, t: seq<Word>)
    requires Distinct(s) && Distinct(t) && Elems(s) !! Elems(t)
    ensures Distinct(s + t)
  {
    forall k, l | 0 <= k < l < |s + t| ensures (s + t)[k] != (s + t)[l] {
      if k < |s| <= l {
        assert s[k] in Elems(s) && t[l - |s|] in Elems(t);
      }
    }
  }

  lemma DistinctSplit(s: seq<Word>, t: seq<Word>)
    requires Distinct(s + t)
    ensures Distinct(s) && Distinct(t) && Elems(s) !! Elems(t)
  {
    assert forall k :: 0 <= k < |s| ==> s[k] == (s + t)[k];
    assert forall k :: 0 <= k < |t| ==> t[k] == (s + t)[|s| + k];
    forall b | b in Elems(s) ensures b !in Elems(t) {
      var k :| 0 <= k < |s| && s[k] == b;
    }
  }

  ghost predicate AllData(s: seq<Word>) {
    forall k :: 0 <= k < |s| ==> DataBlock(s[k])
  }

  ghost function OwnedSet(img: Image, i: nat): set<nat>
    requires |img| == BLOCK_NUM
  {
    if Live(img, i) && Shape(Ino(img, i)) then Elems(Owned(img, Ino(img, i))) else {}
  }

  // ----- effects -----

  /** The change an operation on file i makes: marks taken away, marks set on unused blocks,
      blocks written.  Nothing else changes but the inode. */
  ghost predicate Effect(img: Image, img': Image, i: nat, freed: set<nat>, taken: set<nat>, written: set<nat>)
    requires |img| == BLOCK_NUM
  {
    && |img'| == BLOCK_NUM
    && taken <= Unused(img)
    && Marks(img') == Marks(img) - freed + taken
    && forall b: nat :: b < BLOCK_NUM && b != 2 && b != Home(i) && b !in written ==> img'[b] == img[b]
  }

  /** An effect that frees and writes nothing of theirs leaves the other files alone. */
  lemma EffectUntouched(img: Image, img': Image, i: nat, freed: set<nat>, taken: set<nat>, written: set<nat>)
    requires Sound(img) && i < INODE_NUM && Effect(img, img', i, freed, taken, written)
    requires forall j: nat, b: nat :: j != i && Owns(img, j, b) ==> b !in freed && b !in written
    requires forall b :: b in written ==> DataBlock(b)
    ensures Untouched(img, img', i)
  {
    forall j: nat, b: nat | j != i && Owns(img, j, b) && DataBlock(b)
      ensures img'[b] == img[b] && Marked(img', b)
    {
      assert b in Marks(img);
      assert b in Marks(img');
    }
    forall j: nat | j < INODE_NUM && j != i ensures img'[Home(j)] == img[Home(j)] {
      assert Home(j) !in written;
    }
  }

  /** What is unused, or file i's own, belongs to no other file. */
  lemma NotTheirs(img: Image, i: nat, b: nat)
    requires Sound(img) && (b in OwnedSet(img, i) || b in Unused(img))
    ensures DataBlock(b) && forall j: nat :: j != i ==> !Owns(img, j, b)
  {
    if b in OwnedSet(img, i) {
      OwnedOnDisk(img, Ino(img, i));
      assert Owns(img, i, b);
    }
    forall j: nat | j != i ensures !Owns(img, j, b) {
      assert Owns(img, j, b) ==> b in Marks(img);
    }
  }

  lemma EffectSound(img: Image, img': Image, i: nat, freed: set<nat>, taken: set<nat>, written: set<nat>)
    requires Sound(img) && i < INODE_NUM && Effect(img, img', i, freed, taken, written)
    requires freed <= OwnedSet(img, i)
    requires forall b :: b in written ==> b in OwnedSet(img, i) || b in Unused(img)
    requires Live(img', i) ==> FileOk(img', Ino(img', i))
    requires forall b :: b in OwnedSet(img', i) ==> b in OwnedSet(img, i) || b in taken
    ensures Sound(img') && Untouched(img, img', i)
  {
    forall b | b in freed || b in written ensures DataBlock(b) && forall j: nat :: j != i ==> !Owns(img, j, b) {
      NotTheirs(img, i, b);
    }
    EffectUntouched(img, img', i, freed, taken, written);
    forall j: nat, b: nat | j != i && Owns(img, j, b) ensures !Owns(img', i, b) {
      NoTheft(img, img', i, taken, j, b);
    }
    Commit(img, img', i);
  }

  lemma NoTheft(img: Image, img': Image, i: nat, taken: set<nat>, j: nat, b: nat)
    requires Sound(img) && |img'| == BLOCK_NUM && taken <= Unused(img)
    requires b in OwnedSet(img', i) ==> b in OwnedSet(img, i) || b in taken
    requires j != i && Owns(img, j, b)
    ensures !Owns(img', i, b)
  {
    assert b in Marks(img);
    assert b in OwnedSet(img, i) ==> Owns(img, i, b);
  }

  // ----- marks -----

  lemma SameBitmap(img: Image, img': Image)
    requires |img| == BLOCK_NUM && |img'| == BLOCK_NUM && img'[2] == img[2]
    ensures Marks(img') == Marks(img) && Unused(img') == Unused(img)
  {
    forall b: nat | DataBlock(b) ensures Marked(img', b) == Marked(img, b) {}
  }

  /** At most the bitmap has changed. */
  ghost predicate OnlyBitmap(img: Image, img': Image) {
    && |img| == BLOCK_NUM && |img'| == BLOCK_NUM
    && forall b: nat :: b < BLOCK_NUM && b != 2 ==> img'[b] == img[b]
  }

  /** The distinct unused blocks `got` have been marked, and nothing else has changed. */
  ghost predicate Took(img: Image, img': Image, got: seq<Word>) {
    && OnlyBitmap(img, img') && Distinct(got)
    && Elems(got) <= Unused(img)
    && Marks(img') == Marks(img) + Elems(got)
    && Unused(img') == Unused(img) - Elems(got)
  }

  /** The marks of `gone` have been taken away, and nothing else has changed. */
  ghost predicate Freed(img: Image, img': Image, gone: seq<Word>) {
    OnlyBitmap(img, img') && Marks(img') == Marks(img) - Elems(gone)
  }

  lemma TookNothing(img: Image)
    requires |img| == BLOCK_NUM
    ensures Took(img, img, [])
  {
    assert Elems([]) == {};
  }

  lemma TookBoth(img: Image, img1: Image, img2: Image, got: seq<Word>, more: seq<Word>)
    requires Took(img, img1, got) && Took(img1, img2, more)
    ensures Took(img, img2, got + more)
  {
    ElemsConcat(got, more);
    DistinctConcat(got, more);
  }

  lemma {:induction false} ElemsCount(s: seq<Word>)
    requires Distinct(s)
    ensures |Elems(s)| == |s|
  {
    if s == [] {
      assert Elems(s) == {};
    } else {
      var t, b := s[..|s| - 1], s[|s| - 1];
      assert s == t + [b];
      ElemsSnoc(t, b);
      ElemsCount(t);
      assert b !in Elems(t);
    }
  }

  lemma MarkTakes(img: Image, id: Word)
    requires |img| == BLOCK_NUM && id in Unused(img)
    ensures Took(img, Mark(img, id), [id])
  {
    var img' := Mark(img, id);
    forall b: nat | DataBlock(b) ensures Marked(img', b) <==> b == id || Marked(img, b) {
      MarkedMark(img, id, b);
    }
    assert Elems([id]) == {id as nat};
  }

  /** free_block: for an id beyond the bitmap block, the bit is one of some other block. */
  function FreeOf(img: Image, id: Word): (r: Image)
    ensures |r| == |img|
  {
    if BBlock(id) < |img| then Unmark(img, id) else img
  }

  /** The loops that free one id after another. */
  function FreeEach(img: Image, ids: seq<Word>): (r: Image)
    ensures |r| == |img|
  {
    if ids == [] then img else FreeOf(FreeEach(img, ids[..|ids| - 1]), ids[|ids| - 1])
  }

  lemma FreeEachMore(img: Image, ids: seq<Word>, id: Word)
    ensures FreeEach(img, ids + [id]) == FreeOf(FreeEach(img, ids), id)
  {
    assert (ids + [id])[..|ids|] == ids;
  }

  lemma {:induction false} FreeEachBoth(img: Image, a: seq<Word>, b: seq<Word>)
    ensures FreeEach(img, a + b) == FreeEach(FreeEach(img, a), b)
  {
    if b == [] {
      assert a + b == a;
    } else {
      var c, id := b[..|b| - 1], b[|b| - 1];
      assert a + b == (a + c) + [id];
      FreeEachMore(img, a + c, id);
      FreeEachBoth(img, a, c);
    }
  }

  /** Exactly the bits of the ids are clear afterwards, wherever on the disk they are. */
  lemma {:induction false} FreeEachMarked(img: Image, ids: seq<Word>, b: nat)
    requires BBlock(b) < |img|
    ensures Marked(FreeEach(img, ids), b) <==> Marked(img, b) && b !in Elems(ids)
  {
    if ids == [] {
      assert Elems(ids) == {};
    } else {
      var front, id := ids[..|ids| - 1], ids[|ids| - 1];
      FreeEachMarked(img, front, b);
      assert ids == front + [id];
      ElemsSnoc(front, id);
      if BBlock(id) < |img| { MarkedUnmark(FreeEach(img, front), id, b); }
    }
  }

  /** One of the ids has a set bit in block blk. */
  ghost predicate Bitten(img: Image, ids: set<nat>, blk: nat)
    requires blk < |img|
  {
    exists id :: id in ids && BBlock(id) == blk && Marked(img, id)
  }

  lemma UnmarkClear(img: Image, b: nat)
    requires BBlock(b) < |img| && !Marked(img, b)
    ensures Unmark(img, b) == img
  {
    var block := img[BBlock(b)];
    assert Unmarking(block, b % BPB) == block;
  }

  lemma {:induction false} NotBitten(img: Image, ids: seq<Word>, blk: nat)
    requires blk < |img| && !Bitten(img, Elems(ids), blk)
    ensures FreeEach(img, ids)[blk] == img[blk]
  {
    if ids != [] {
      var front, id := ids[..|ids| - 1], ids[|ids| - 1];
      assert ids == front + [id];
      ElemsSnoc(front, id);
      NotBitten(img, front, blk);
      if BBlock(id) == blk {
        assert id in Elems(ids);
        FreeEachMarked(img, front, id);
        UnmarkClear(FreeEach(img, front), id);
      }
    }
  }

  /** Freeing any ids changes a block if and only if one of them has a set bit in it. */
  lemma FreeEachBlock(img: Image, ids: seq<Word>, blk: nat)
    requires blk < |img|
    ensures FreeEach(img, ids)[blk] == img[blk] <==> !Bitten(img, Elems(ids), blk)
  {
    if Bitten(img, Elems(ids), blk) {
      var id :| id in Elems(ids) && BBlock(id) == blk && Marked(img, id);
      FreeEachMarked(img, ids, id);
    } else {
      NotBitten(img, ids, blk);
    }
  }

  /** Ids that have their bit in the bitmap lose their marks, and nothing else changes. */
  lemma FreeEachFrees(img: Image, ids: seq<Word>)
    requires |img| == BLOCK_NUM && forall k :: 0 <= k < |ids| ==> ids[k] < BPB
    ensures Freed(img, FreeEach(img, ids), ids)
  {
    forall b: nat | b < BLOCK_NUM && b != 2 ensures FreeEach(img, ids)[b] == img[b] { FreeEachBlock(img, ids, b); }
    FreeEachMarks(img, ids);
  }

  lemma FreeEachMarks(img: Image, ids: seq<Word>)
    requires |img| == BLOCK_NUM
    ensures Marks(FreeEach(img, ids)) == Marks(img) - Elems(ids)
  {
    forall b: nat | DataBlock(b) ensures b in Marks(FreeEach(img, ids)) <==> b in Marks(img) && b !in Elems(ids) {
      FreeEachMarked(img, ids, b);
    }
  }

  /** On a disk with room, what alloc_block finds is a data block. */
  lemma AllocTakes(img: Image)
    requires |img| == BLOCK_NUM && Unused(img) != {}
    ensures BBlock(BLOCK_NUM) < |img| && !NoneFree(img, BLOCK_NUM, INODE_NUM)
    ensures forall id: nat :: FirstFree(img, BLOCK_NUM, INODE_NUM, id) ==>
              && id in Unused(img) && (forall b :: FIRST_DATA <= b < id ==> b !in Unused(img))
              && Took(img, Mark(img, id), [id])
              && |Unused(Mark(img, id))| == |Unused(img)| - 1
  {
    var any :| any in Unused(img);
    FirstDataIs();
    forall id: nat | FirstFree(img, BLOCK_NUM, INODE_NUM, id)
      ensures id in Unused(img) && Took(img, Mark(img, id), [id]) && |Unused(Mark(img, id))| == |Unused(img)| - 1
    {
      MarkTakes(img, id);
      assert Elems([id]) == {id};
    }
  }

  /** alloc_block on a disk without room: the id is no data block and no data block's mark changes. */
  ghost predicate Overran(img: Image, img': Image, id: nat) {
    && OnlyBitmap(img, img') && !DataBlock(id)
    && Marks(img') == Marks(img) && Unused(img') == Unused(img)
  }

  /** On a disk without room, alloc_block hands out an id beyond the disk: the bitmap block has
      more bits than the disk has blocks. */
  lemma AllocWithoutRoom(img: Image, id: nat)
    requires |img| == BLOCK_NUM && FirstFree(img, BLOCK_NUM, INODE_NUM, id)
    ensures Unused(img) == {} <==> id >= BLOCK_NUM
  {
    FirstDataIs();
    if id < BLOCK_NUM { assert id in Unused(img); }
    forall b | b in Unused(img) ensures id < BLOCK_NUM { assert !Marked(img, b); }
  }

  lemma AllocOverruns(img: Image, id: nat)
    requires |img| == BLOCK_NUM && FirstFree(img, BLOCK_NUM, INODE_NUM, id) && Unused(img) == {}
    ensures Overran(img, Mark(img, id), id)
  {
    AllocWithoutRoom(img, id);
    forall b: nat | DataBlock(b) ensures Marked(Mark(img, id), b) == Marked(img, b) {
      MarkedMark(img, id, b);
    }
  }

  // ----- plans -----

  /** The bitmap already shows the file's new blocks instead of its old ones. */
  ghost predicate Plan(img: Image, img1: Image, i: nat, owned: seq<Word>) {
    && OnlyBitmap(img, img1)
    && Distinct(owned)
    && (forall b :: b in Elems(owned) ==> b in OwnedSet(img, i) || b in Unused(img))
    && Marks(img1) == Marks(img) - OwnedSet(img, i) + Elems(owned)
  }

  /** Taking blocks on top of those the file has. */
  lemma PlanTake(img: Image, img1: Image, i: nat, got: seq<Word>, owned: seq<Word>)
    requires Sound(img) && Live(img, i) && Took(img, img1, got)
    requires Distinct(owned) && Elems(owned) == OwnedSet(img, i) + Elems(got)
    ensures Plan(img, img1, i, owned)
  {
    OwnedSetMarked(img, i);
  }

  /** Giving up some of the blocks the file has. */
  lemma PlanFree(img: Image, img1: Image, i: nat, gone: set<nat>, owned: seq<Word>)
    requires Sound(img) && Live(img, i) && OnlyBitmap(img, img1) && Marks(img1) == Marks(img) - gone
    requires Distinct(owned) && OwnedSet(img, i) == Elems(owned) + gone && Elems(owned) !! gone
    ensures Plan(img, img1, i, owned)
  {
    OwnedSetMarked(img, i);
  }

  lemma OwnedSetMarked(img: Image, i: nat)
    requires Sound(img)
    ensures OwnedSet(img, i) <= Marks(img)
  {
    if Live(img, i) { assert FileOk(img, Ino(img, i)); }
  }

  /** A plan carried out: the planned blocks may have been written, and the inode names them. */
  lemma PlanDone(img: Image, img1: Image, img2: Image, i: nat, owned: seq<Word>)
    requires Sound(img) && i < INODE_NUM && Plan(img, img1, i, owned)
    requires |img2| == BLOCK_NUM && img2[2] == img1[2]
    requires forall b: nat :: b < BLOCK_NUM && b != 2 && b != Home(i) && b !in Elems(owned) ==> img2[b] == img1[b]
    requires Live(img2, i) && Shape(Ino(img2, i)) && Owned(img2, Ino(img2, i)) == owned
    ensures Sound(img2) && Untouched(img, img2, i)
    ensures Marks(img2) == Marks(img) - OwnedSet(img, i) + OwnedSet(img2, i)
  {
    SameBitmap(img1, img2);
    OwnedSetMarked(img, i);
    var freed, taken := OwnedSet(img, i) - Elems(owned), Elems(owned) - OwnedSet(img, i);
    assert Marks(img2) == Marks(img) - freed + taken;
    assert Effect(img, img2, i, freed, taken, Elems(owned));
    EffectSound(img, img2, i, freed, taken, Elems(owned));
  }
}
