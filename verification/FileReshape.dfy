/** The cases of write_file before it writes: the old number of blocks against the new one, on
    either side of the direct blocks. */
module FileReshape {
  import opened DiskLayout
  import opened InodeCodec
  import opened FileView
  import opened FilePlan

  /** The blocks of a file with n data blocks whose inode and table are given. */
  ghost function Listed(blocks: seq<Word>, table: seq<Word>, n: nat): seq<Word>
    requires |blocks| == NDIRECT + 1 && n <= MAXFILE && (n > NDIRECT ==> |table| == NINDIRECT)
  {
    if n <= NDIRECT then blocks[..n] else blocks[..NDIRECT] + table[..n - NDIRECT] + [blocks[NDIRECT]]
  }

  lemma ListedElems(blocks: seq<Word>, table: seq<Word>, n: nat)
    requires |blocks| == NDIRECT + 1 && |table| == NINDIRECT && NDIRECT < n <= MAXFILE
    ensures Elems(Listed(blocks, table, n)) == Elems(blocks) + Elems(table[..n - NDIRECT])
  {
    ElemsConcat(blocks[..NDIRECT] + table[..n - NDIRECT], [blocks[NDIRECT]]);
    ElemsConcat(blocks[..NDIRECT], table[..n - NDIRECT]);
    assert blocks == blocks[..NDIRECT] + [blocks[NDIRECT]];
    ElemsConcat(blocks[..NDIRECT], [blocks[NDIRECT]]);
  }

  ghost function TableIn(img: Image, ino: Inode): seq<Word>
    requires |img| == BLOCK_NUM && Shape(ino)
  {
    if Count(ino.size) > NDIRECT then TableOf(img[ino.blocks[NDIRECT]]) else []
  }

  lemma OwnedIsListed(img: Image, ino: Inode)
    requires |img| == BLOCK_NUM && Shape(ino)
    ensures Owned(img, ino) == Listed(ino.blocks, TableIn(img, ino), Count(ino.size))
  {
  }

  /** File i has n blocks, and its table is t. */
  ghost predicate HasTable(img: Image, i: nat, ino: Inode, n: nat, t: seq<Word>) {
    && HasFile(img, i, ino, n) && Shape(ino)
    && NDIRECT < n <= MAXFILE && |t| == NINDIRECT && t == TableIn(img, ino)
  }

  lemma IdsByTable(img: Image, ino: Inode, t: seq<Word>)
    requires |img| == BLOCK_NUM && Shape(ino) && t == TableIn(img, ino)
    ensures Count(ino.size) <= NDIRECT ==> Ids(img, ino) == [] + ino.blocks[..Count(ino.size)]
    ensures Count(ino.size) > NDIRECT ==> Ids(img, ino) == [] + ino.blocks[..NDIRECT] + t[..Count(ino.size) - NDIRECT]
  {
  }

  /** r is slots with `got` in place of slots lo to hi - 1. */
  ghost predicate Filled(r: seq<Word>, slots: seq<Word>, lo: nat, hi: nat, got: seq<Word>) {
    && lo <= hi <= |slots| && |got| == hi - lo && |r| == |slots|
    && (forall k :: 0 <= k < lo || hi <= k < |slots| ==> r[k] == slots[k])
    && forall k :: lo <= k < hi ==> r[k] == got[k - lo]
  }

  lemma FilledMore(r: seq<Word>, slots: seq<Word>, lo: nat, i: nat, got: seq<Word>, id: Word)
    requires Filled(r, slots, lo, i, got) && i < |slots|
    ensures Filled(r[i := id], slots, lo, i + 1, got + [id])
  {
  }

  lemma FilledPrefix(r: seq<Word>, slots: seq<Word>, lo: nat, hi: nat, got: seq<Word>)
    requires Filled(r, slots, lo, hi, got)
    ensures r[..hi] == slots[..lo] + got
  {
  }

  /** The new blocks a change from origin to need blocks takes. */
  function NewBlocks(origin: nat, need: nat): nat {
    if need <= origin then 0
    else need - origin + if origin < NDIRECT < need then 1 else 0
  }

  lemma OldBlocks(img: Image, i: nat)
    requires Sound(img) && Live(img, i)
    ensures Shape(Ino(img, i)) && Distinct(Owned(img, Ino(img, i)))
    ensures OwnedSet(img, i) == Elems(Owned(img, Ino(img, i))) && OwnedSet(img, i) <= Marks(img)
  {
    assert FileOk(img, Ino(img, i));
    OwnedSetMarked(img, i);
  }

  /** Blocks taken between two parts of the old list. */
  lemma TakePart(img: Image, img1: Image, i: nat, a: seq<Word>, got: seq<Word>, rest: seq<Word>)
    requires Sound(img) && Live(img, i) && Took(img, img1, got)
    requires Shape(Ino(img, i)) && Owned(img, Ino(img, i)) == a + rest
    ensures Plan(img, img1, i, a + (got + rest))
  {
    OldBlocks(img, i);
    DistinctSplit(a, rest);
    ElemsConcat(a, rest);
    ElemsConcat(got, rest);
    ElemsConcat(a, got + rest);
    DistinctConcat(got, rest);
    DistinctConcat(a, got + rest);
    PlanTake(img, img1, i, got, a + (got + rest));
  }

  /** Blocks given up between two parts of the old list. */
  lemma FreePart(img: Image, img1: Image, i: nat, a: seq<Word>, gone: seq<Word>, rest: seq<Word>)
    requires Sound(img) && Live(img, i) && Freed(img, img1, gone)
    requires Shape(Ino(img, i)) && Owned(img, Ino(img, i)) == a + (gone + rest)
    ensures Plan(img, img1, i, a + rest)
  {
    OldBlocks(img, i);
    DistinctSplit(a, gone + rest);
    DistinctSplit(gone, rest);
    ElemsConcat(a, gone + rest);
    ElemsConcat(gone, rest);
    ElemsConcat(a, rest);
    DistinctConcat(a, rest);
    PlanFree(img, img1, i, Elems(gone), a + rest);
  }

  lemma Grow11(img: Image, img1: Image, i: nat, ino: Inode, got: seq<Word>, r: seq<Word>, n: nat, need: nat)
    requires HasFile(img, i, ino, n) && Took(img, img1, got)
    requires n < need <= NDIRECT
    requires Filled(r, ino.blocks, n, need, got)
    ensures Plan(img, img1, i, Listed(r, [], need))
  {
    var kept := ino.blocks[..n];
    FilledPrefix(r, ino.blocks, n, need, got);
    assert Owned(img, ino) == kept + [];
    TakePart(img, img1, i, kept, got, []);
    assert r[..need] == kept + (got + []);
  }

  lemma Same(img: Image, i: nat)
    requires Sound(img) && Live(img, i)
    ensures Shape(Ino(img, i)) && Plan(img, img, i, Owned(img, Ino(img, i)))
  {
    OldBlocks(img, i);
    TookNothing(img);
    var owned := Owned(img, Ino(img, i));
    assert owned == [] + owned && [] + ([] + owned) == owned;
    TakePart(img, img, i, [], [], owned);
  }

  lemma SameDirect(img: Image, i: nat, ino: Inode, need: nat)
    requires HasFile(img, i, ino, need) && need <= NDIRECT
    ensures Plan(img, img, i, Listed(ino.blocks, [], need))
  {
    Same(img, i);
    assert Owned(img, ino) == ino.blocks[..need];
  }

  lemma SameIndirect(img: Image, i: nat, ino: Inode, t: seq<Word>, need: nat)
    requires HasTable(img, i, ino, need, t)
    ensures Plan(img, img, i, Listed(ino.blocks, t, need))
  {
    Same(img, i);
    OwnedIsListed(img, ino);
  }

  lemma SplitDirect(blocks: seq<Word>, n: nat, need: nat)
    requires |blocks| == NDIRECT + 1 && need < n <= NDIRECT
    ensures Listed(blocks, [], n) == blocks[..need] + (blocks[need..n] + [])
    ensures Listed(blocks, [], need) == blocks[..need] + []
  {
  }

  lemma Shrink13(img: Image, img1: Image, i: nat, ino: Inode, n: nat, need: nat)
    requires HasFile(img, i, ino, n) && need < n <= NDIRECT
    requires Freed(img, img1, ino.blocks[need..n])
    ensures Plan(img, img1, i, Listed(ino.blocks, [], need))
  {
    OwnedIsListed(img, ino);
    SplitDirect(ino.blocks, n, need);
    FreePart(img, img1, i, ino.blocks[..need], ino.blocks[need..n], []);
  }

  lemma SplitTail(blocks: seq<Word>, t: seq<Word>, n: nat, need: nat)
    requires |blocks| == NDIRECT + 1 && |t| == NINDIRECT && need <= NDIRECT < n <= MAXFILE
    ensures var keep, tail, tb := blocks[..need], blocks[need..NDIRECT], [blocks[NDIRECT]];
            && Listed(blocks, t, n) == keep + (tail + (t[0..n - NDIRECT] + tb) + [])
            && blocks[need..NDIRECT + 1] == tail + tb
            && keep + [] == Listed(blocks, [], need)
            && Elems(tail + (t[0..n - NDIRECT] + tb)) == Elems(t[0..n - NDIRECT]) + Elems(blocks[need..NDIRECT + 1])
  {
    var tail, u, tb := blocks[need..NDIRECT], t[0..n - NDIRECT], [blocks[NDIRECT]];
    assert u == t[..n - NDIRECT];
    ElemsConcat(tail, u + tb);
    ElemsConcat(u, tb);
    assert blocks[need..NDIRECT + 1] == tail + tb;
    ElemsConcat(tail, tb);
  }

  lemma Shrink14(img: Image, mid: Image, img1: Image, i: nat, ino: Inode, t: seq<Word>, n: nat, need: nat)
    requires HasTable(img, i, ino, n, t) && need <= NDIRECT
    requires Freed(img, mid, t[0..n - NDIRECT])
    requires Freed(mid, img1, ino.blocks[need..NDIRECT + 1])
    ensures Plan(img, img1, i, Listed(ino.blocks, [], need))
  {
    OwnedIsListed(img, ino);
    SplitTail(ino.blocks, t, n, need);
    FreePart(img, img1, i, ino.blocks[..need],
             ino.blocks[need..NDIRECT] + (t[0..n - NDIRECT] + [ino.blocks[NDIRECT]]), []);
  }

  lemma Shuffle(got: seq<Word>, tb: Word, more: seq<Word>)
    requires Distinct(got + [tb] + more)
    ensures Distinct(got + (more + [tb])) && Elems(got + (more + [tb])) == Elems(got + [tb] + more)
  {
    DistinctSplit(got + [tb], more);
    DistinctSplit(got, [tb]);
    ElemsConcat(got + [tb], more);
    ElemsConcat(got, [tb]);
    ElemsConcat(more, [tb]);
    ElemsConcat(got, more + [tb]);
    DistinctConcat(more, [tb]);
    DistinctConcat(got, more + [tb]);
  }

  lemma ListedGrow21(r: seq<Word>, table: seq<Word>, need: nat, kept: seq<Word>, got: seq<Word>)
    requires |r| == NDIRECT + 1 && NDIRECT < need <= MAXFILE && |table| == NINDIRECT && r[..NDIRECT] == kept + got
    ensures Listed(r, table, need) == kept + (got + (table[..need - NDIRECT] + [r[NDIRECT]]) + [])
  {
  }

  lemma Grow21(img: Image, img1: Image, i: nat, ino: Inode, got: seq<Word>, tb: Word, more: seq<Word>,
               r: seq<Word>, table: seq<Word>, n: nat, need: nat)
    requires HasFile(img, i, ino, n) && Took(img, img1, got + [tb] + more)
    requires n < NDIRECT < need <= MAXFILE
    requires |r| == NDIRECT + 1 && r[NDIRECT] == tb && r[..NDIRECT] == ino.blocks[..n] + got
    requires |table| == NINDIRECT && table[..need - NDIRECT] == more
    ensures Plan(img, img1, i, Listed(r, table, need))
  {
    var kept := ino.blocks[..n];
    Shuffle(got, tb, more);
    assert Owned(img, ino) == kept + [];
    TakePart(img, img1, i, kept, got + (more + [tb]), []);
    ListedGrow21(r, table, need, kept, got);
  }

  /** The first two steps of case 2-1: the missing direct blocks and the table's block. */
  ghost predicate DirectTaken(img: Image, img1: Image, img2: Image, i: nat, ino: Inode, n: nat,
                              direct: seq<Word>, got: seq<Word>, tb: Word) {
    && HasFile(img, i, ino, n) && n < NDIRECT
    && Took(img, img1, got) && Filled(direct, ino.blocks, n, NDIRECT, got) && Took(img1, img2, [tb])
  }

  /** And the third: the table's ids. */
  lemma AddedTable(img: Image, img1: Image, img2: Image, img3: Image, i: nat, ino: Inode,
                   got: seq<Word>, tb: Word, more: seq<Word>,
                   direct: seq<Word>, blocks: seq<Word>, garbage: seq<Word>, table: seq<Word>, n: nat, need: nat)
    requires DirectTaken(img, img1, img2, i, ino, n, direct, got, tb) && NDIRECT < need <= MAXFILE
    requires |direct| == |blocks| == NDIRECT + 1 && blocks == direct[NDIRECT := tb]
    requires Took(img2, img3, more) && |garbage| == NINDIRECT && Filled(table, garbage, 0, need - NDIRECT, more)
    ensures Plan(img, img3, i, Listed(blocks, table, need))
  {
    FilledPrefix(direct, ino.blocks, n, NDIRECT, got);
    FilledPrefix(table, garbage, 0, need - NDIRECT, more);
    assert table[..need - NDIRECT] == more;
    TookBoth(img, img1, img2, got, [tb]);
    TookBoth(img, img2, img3, got + [tb], more);
    assert blocks[..NDIRECT] == direct[..NDIRECT];
    Grow21(img, img3, i, ino, got, tb, more, blocks, table, n, need);
  }

  lemma ListedGrow22(blocks: seq<Word>, t: seq<Word>, table: seq<Word>, n: nat, need: nat, got: seq<Word>)
    requires |blocks| == NDIRECT + 1 && |t| == NINDIRECT && NDIRECT < n < need <= MAXFILE
    requires Filled(table, t, n - NDIRECT, need - NDIRECT, got)
    ensures Listed(blocks, t, n) == blocks[..NDIRECT] + t[..n - NDIRECT] + [blocks[NDIRECT]]
    ensures Listed(blocks, table, need) == blocks[..NDIRECT] + t[..n - NDIRECT] + (got + [blocks[NDIRECT]])
  {
    FilledPrefix(table, t, n - NDIRECT, need - NDIRECT, got);
  }

  lemma Grow22(img: Image, img1: Image, i: nat, ino: Inode, got: seq<Word>, t: seq<Word>, table: seq<Word>,
               n: nat, need: nat)
    requires HasTable(img, i, ino, n, t) && Took(img, img1, got) && n < need <= MAXFILE
    requires Filled(table, t, n - NDIRECT, need - NDIRECT, got)
    ensures Plan(img, img1, i, Listed(ino.blocks, table, need))
  {
    OwnedIsListed(img, ino);
    ListedGrow22(ino.blocks, t, table, n, need, got);
    TakePart(img, img1, i, ino.blocks[..NDIRECT] + t[..n - NDIRECT], got, [ino.blocks[NDIRECT]]);
  }

  lemma ListedShrink24(blocks: seq<Word>, t: seq<Word>, n: nat, need: nat)
    requires |blocks| == NDIRECT + 1 && |t| == NINDIRECT && NDIRECT < need < n <= MAXFILE
    ensures var a, gone := blocks[..NDIRECT] + t[..need - NDIRECT], t[need - NDIRECT..n - NDIRECT];
            var tb := [blocks[NDIRECT]];
            Listed(blocks, t, n) == a + (gone + tb) && Listed(blocks, t, need) == a + tb
  {
    assert t[..n - NDIRECT] == t[..need - NDIRECT] + t[need - NDIRECT..n - NDIRECT];
  }

  lemma Shrink24(img: Image, img1: Image, i: nat, ino: Inode, t: seq<Word>, gone: seq<Word>, n: nat, need: nat)
    requires HasTable(img, i, ino, n, t) && NDIRECT < need < n
    requires gone == t[need - NDIRECT..n - NDIRECT] && Freed(img, img1, gone)
    ensures Plan(img, img1, i, Listed(ino.blocks, t, need))
  {
    var a, tb := ino.blocks[..NDIRECT] + t[..need - NDIRECT], [ino.blocks[NDIRECT]];
    assert Owned(img, ino) == a + (gone + tb) && Listed(ino.blocks, t, need) == a + tb by {
      OwnedIsListed(img, ino);
      ListedShrink24(ino.blocks, t, n, need);
    }
    FreePart(img, img1, i, a, gone, tb);
  }
}
